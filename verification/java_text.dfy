/**
 * The pieces of `java.lang` text handling the modelled code relies on: decimal
 * rendering and parsing of integers, `Character.isWhitespace`, the characters
 * the regex engine treats as line terminators, and `String.compareTo`.
 */
module JavaText {

  /** Largest Java `int`. */
  const MaxInt: int := 0x7fff_ffff

  /** A Java `int` value. */
  type JInt = x: int | -0x8000_0000 <= x <= MaxInt

  /** The regex class `\d` (ASCII digits only, as Java's default). */
  predicate IsDigit(c: char) {
    '0' <= c <= '9'
  }

  predicate AllDigits(s: string) {
    forall i | 0 <= i < |s| :: IsDigit(s[i])
  }

  function DigitValue(c: char): (d: nat)
    requires IsDigit(c)
    ensures d < 10
  {
    (c as int) - ('0' as int)
  }

  function DigitChar(d: nat): (c: char)
    requires d < 10
    ensures IsDigit(c) && DigitValue(c) == d
  {
    (('0' as int) + d) as char
  }

  /** Decimal rendering of a natural number, as `%d` prints it. */
  function NatToString(n: nat): (s: string)
    ensures |s| > 0 && AllDigits(s)
    ensures n < 10 <==> |s| == 1
  {
    if n < 10 then [DigitChar(n)] else NatToString(n / 10) + [DigitChar(n % 10)]
  }

  /** Decimal rendering of any integer, with a leading `-` when negative. */
  function IntToString(i: int): string {
    if i < 0 then "-" + NatToString(-i) else NatToString(i)
  }

  /** The value of a string of decimal digits; leading zeros are allowed. */
  function DigitsValue(s: string): nat
    requires AllDigits(s)
  {
    if |s| == 0 then 0 else 10 * DigitsValue(s[..|s| - 1]) + DigitValue(s[|s| - 1])
  }

  /** Reading back a rendered number gives the number. */
  lemma {:induction false} DigitsValueOfNatToString(n: nat)
    ensures DigitsValue(NatToString(n)) == n
  {
    if n >= 10 {
      DigitsValueOfNatToString(n / 10);
      var s := NatToString(n);
      assert s[..|s| - 1] == NatToString(n / 10);
    }
  }

  /** `s` is how `%d` writes `n`: decimal digits of value `n`, with no leading
      zero unless `n` is zero itself. */
  predicate Decimal(s: string, n: nat) {
    |s| > 0 && AllDigits(s) && DigitsValue(s) == n && (|s| == 1 || s[0] != '0')
  }

  /** A rendered number never starts with a redundant zero. */
  lemma {:induction false} NatToStringNoLeadingZero(n: nat)
    ensures |NatToString(n)| == 1 || NatToString(n)[0] != '0'
  {
    if n >= 10 {
      NatToStringNoLeadingZero(n / 10);
      var t := NatToString(n / 10);
      assert NatToString(n)[0] == t[0];
      if n / 10 < 10 {
        assert DigitValue(t[0]) == n / 10;
      }
    }
  }

  /** Digits whose value is zero are all zeros. */
  lemma {:induction false} DigitsValueZero(s: string)
    requires AllDigits(s) && DigitsValue(s) == 0
    ensures forall i | 0 <= i < |s| :: s[i] == '0'
  {
    if |s| > 0 {
      var init := s[..|s| - 1];
      DigitsValueZero(init);
      forall i | 0 <= i < |s|
        ensures s[i] == '0'
      {
        if i < |s| - 1 {
          assert s[i] == init[i];
        }
      }
    }
  }

  /** `NatToString` is the `%d` rendering. */
  lemma NatToStringDecimal(n: nat)
    ensures Decimal(NatToString(n), n)
  {
    DigitsValueOfNatToString(n);
    NatToStringNoLeadingZero(n);
  }

  /** The `%d` rendering is unique: it is `NatToString`. */
  lemma {:induction false} DecimalIsNatToString(s: string, n: nat)
    requires Decimal(s, n)
    ensures s == NatToString(n)
    decreases |s|
  {
    var last := s[|s| - 1];
    if |s| == 1 {
      assert DigitsValue(s) == 10 * DigitsValue(s[..0]) + DigitValue(last);
      assert DigitsValue(s[..0]) == 0;
    } else {
      var init := s[..|s| - 1];
      assert init[0] == s[0];
      assert AllDigits(init) by {
        forall i | 0 <= i < |init|
          ensures IsDigit(init[i])
        {
          assert init[i] == s[i];
        }
      }
      if DigitsValue(init) == 0 {
        DigitsValueZero(init);
        assert false;
      }
      DecimalIsNatToString(init, DigitsValue(init));
      assert n / 10 == DigitsValue(init) && n % 10 == DigitValue(last);
      assert s == init + [last];
    }
  }

  /** `Character.isWhitespace`: the Unicode space, line and paragraph
      separators other than the non-breaking ones, plus the listed controls. */
  predicate IsJavaWhitespace(c: char) {
    || c == ' ' || c == '\t' || c == '\n' || c == '\U{000B}' || c == '\U{000C}' || c == '\r'
    || ('\U{001C}' <= c <= '\U{001F}')
    || c == '\U{1680}'
    || ('\U{2000}' <= c <= '\U{2006}')
    || ('\U{2008}' <= c <= '\U{200A}')
    || c == '\U{2028}' || c == '\U{2029}' || c == '\U{205F}' || c == '\U{3000}'
  }

  /** `s.chars().allMatch(Character::isWhitespace)`; true of the empty string. */
  predicate IsBlank(s: string) {
    forall i | 0 <= i < |s| :: IsJavaWhitespace(s[i])
  }

  /** The characters `java.util.regex` treats as line terminators (the regex
      `.` does not match them; `\r\n` counts as one terminator before `$`). */
  predicate IsLineTerminator(c: char) {
    c == '\n' || c == '\r' || c == '\U{0085}' || c == '\U{2028}' || c == '\U{2029}'
  }

  predicate HasNoLineTerminator(s: string) {
    forall i | 0 <= i < |s| :: !IsLineTerminator(s[i])
  }

  /** `String.compareTo`: the difference of the first differing characters, or
      else the difference of the lengths. */
  function CompareStrings(s: string, t: string): int {
    if |s| == 0 || |t| == 0 then |s| - |t|
    else if s[0] != t[0] then (s[0] as int) - (t[0] as int)
    else CompareStrings(s[1..], t[1..])
  }

  lemma {:induction false} CompareStringsZero(s: string, t: string)
    ensures CompareStrings(s, t) == 0 <==> s == t
  {
    if |s| > 0 && |t| > 0 && s[0] == t[0] {
      CompareStringsZero(s[1..], t[1..]);
      assert s == [s[0]] + s[1..] && t == [t[0]] + t[1..];
    }
  }

  /** Swapping the arguments negates the result. */
  lemma {:induction false} CompareStringsFlip(s: string, t: string)
    ensures CompareStrings(t, s) == -CompareStrings(s, t)
  {
    if |s| > 0 && |t| > 0 && s[0] == t[0] {
      CompareStringsFlip(s[1..], t[1..]);
    }
  }

  lemma {:induction false} CompareStringsTransitive(s: string, t: string, u: string)
    requires CompareStrings(s, t) <= 0 && CompareStrings(t, u) <= 0
    ensures CompareStrings(s, u) <= 0
  {
    if |s| > 0 && |t| > 0 && |u| > 0 && s[0] == t[0] && t[0] == u[0] {
      CompareStringsTransitive(s[1..], t[1..], u[1..]);
    }
  }
}
