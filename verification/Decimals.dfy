/** Numbers written in decimal digits: what a digit string is worth, and the same read off the text alone. */
module Decimals {
  import opened PathOrder

  predicate AsciiDigits(s: string) {
    s != "" && AllDigits(s)
  }

  predicate AllDigits(s: string) {
    forall i :: 0 <= i < |s| ==> '0' <= s[i] <= '9'
  }

  function DigitValue(c: char): nat {
    if '0' <= c <= '9' then (c - '0') as nat else 0
  }

  function Value(s: string): nat {
    if s == "" then 0 else 10 * Value(s[..|s| - 1]) + DigitValue(s[|s| - 1])
  }

  // ---- The text of a number ----

  const DIGITS := "0123456789"

  /** The digits of a number, without leading zeros. */
  function Decimal(n: nat): string {
    (if n < 10 then "" else Decimal(n / 10)) + [DigitChar(n % 10)]
  }

  function DigitChar(d: nat): char
    requires d < 10
  {
    DIGITS[d]
  }

  lemma DigitOf(d: nat)
    requires d < 10
    ensures '0' <= DigitChar(d) <= '9' && DigitValue(DigitChar(d)) == d
    ensures DigitChar(d) == '0' <==> d == 0
  {
    assert DIGITS[0] == '0' && DIGITS[1] == '1' && DIGITS[2] == '2' && DIGITS[3] == '3' && DIGITS[4] == '4';
    assert DIGITS[5] == '5' && DIGITS[6] == '6' && DIGITS[7] == '7' && DIGITS[8] == '8' && DIGITS[9] == '9';
  }

  lemma ValueMore(s: string, c: char)
    ensures Value(s + [c]) == 10 * Value(s) + DigitValue(c)
    ensures AllDigits(s) && '0' <= c <= '9' ==> AllDigits(s + [c])
  {
    assert (s + [c])[..|s|] == s;
    hide DigitValue;
  }

  lemma DecimalSteps(n: nat)
    ensures n < 10 ==> Decimal(n) == [DigitChar(n)]
    ensures n >= 10 ==> Decimal(n) == Decimal(n / 10) + [DigitChar(n % 10)]
  {
    hide DigitChar;
  }

  lemma {:induction false} DecimalReads(n: nat)
    ensures AsciiDigits(Decimal(n)) && Value(Decimal(n)) == n
    ensures Decimal(n)[0] == '0' <==> n == 0
    ensures |Decimal(n)| > 1 <==> n >= 10
  {
    hide DigitValue, Value, AllDigits, Decimal, DigitChar;
    var d := n % 10;
    DigitOf(d);
    DecimalSteps(n);
    if n >= 10 {
      DecimalReads(n / 10);
      ValueMore(Decimal(n / 10), DigitChar(d));
    } else {
      OneDigit(DigitChar(d));
    }
  }

  lemma OneDigit(c: char)
    ensures Value([c]) == DigitValue(c) && ('0' <= c <= '9' ==> AllDigits([c]))
  {
    assert [c][..0] == "";
    hide DigitValue;
  }

  lemma DigitBack(c: char)
    requires '0' <= c <= '9'
    ensures DigitValue(c) < 10 && DigitChar(DigitValue(c)) == c
  {
    assert DIGITS[0] == '0' && DIGITS[1] == '1' && DIGITS[2] == '2' && DIGITS[3] == '3' && DIGITS[4] == '4';
    assert DIGITS[5] == '5' && DIGITS[6] == '6' && DIGITS[7] == '7' && DIGITS[8] == '8' && DIGITS[9] == '9';
  }

  lemma {:induction false} LeadingDigit(s: string)
    requires AsciiDigits(s) && s[0] != '0'
    ensures Value(s) > 0
  {
    var front, last := s[..|s| - 1], s[|s| - 1];
    if front != "" {
      assert AsciiDigits(front);
      LeadingDigit(front);
    } else {
      DigitBack(last);
      assert Value(front) == 0;
    }
  }

  /** A digit string without leading zeros is the text of its value. */
  lemma {:induction false} OnlyText(s: string)
    requires AsciiDigits(s) && (|s| > 1 ==> s[0] != '0')
    ensures s == Decimal(Value(s))
  {
    var front, last := s[..|s| - 1], s[|s| - 1];
    assert s == front + [last];
    DigitBack(last);
    if front == "" {
      assert Value(front) == 0;
    } else {
      assert AsciiDigits(front);
      OnlyText(front);
      LeadingDigit(front);
      assert Value(s) / 10 == Value(front) && Value(s) % 10 == DigitValue(last);
    }
    hide DigitValue, AsciiDigits;
  }

  // ---- Comparing texts ----

  function WithoutZeros(s: string): string {
    if s != "" && s[0] == '0' then WithoutZeros(s[1..]) else s
  }

  /** Leading zeros aside, the shorter text is the lower number, and of equal length the one with the lower first difference. */
  predicate NumberLess(a: string, b: string) {
    var x, y := WithoutZeros(a), WithoutZeros(b);
    |x| < |y| || (|x| == |y| && StringLess(x, y))
  }

  lemma {:induction false} ValueFrom(a: string, b: string)
    ensures Value(a) == 0 ==> Value(a + b) == Value(b)
  {
    if b != "" {
      ValueFrom(a, b[..|b| - 1]);
      assert (a + b)[..|a + b| - 1] == a + b[..|b| - 1];
    } else {
      assert a + b == a;
    }
  }

  lemma {:induction false} ZerosAside(s: string)
    requires AllDigits(s)
    ensures Value(WithoutZeros(s)) == Value(s)
    ensures AllDigits(WithoutZeros(s))
    ensures WithoutZeros(s) != "" ==> WithoutZeros(s)[0] != '0'
  {
    if s != "" && s[0] == '0' {
      ZerosAside(s[1..]);
      assert s == "0" + s[1..];
      assert Value("0") == 0 by {
        assert "0"[..0] == "";
      }
      ValueFrom("0", s[1..]);
    }
  }

  lemma {:induction false} LessAtEnd(a: string, b: string)
    requires |a| == |b| > 0
    ensures var f, g, c, d := a[..|a| - 1], b[..|b| - 1], a[|a| - 1], b[|b| - 1];
            StringLess(a, b) <==> StringLess(f, g) || (f == g && c < d)
  {
    if |a| > 1 {
      LessAtEnd(a[1..], b[1..]);
      assert a[1..][..|a| - 2] == a[..|a| - 1][1..] && b[1..][..|b| - 2] == b[..|b| - 1][1..];
      assert a[..|a| - 1] == [a[0]] + a[..|a| - 1][1..] && b[..|b| - 1] == [b[0]] + b[..|b| - 1][1..];
    }
  }

  lemma {:induction false} SameLength(a: string, b: string)
    requires |a| == |b| && AllDigits(a) && AllDigits(b)
    ensures Value(a) < Value(b) <==> StringLess(a, b)
    ensures Value(a) == Value(b) <==> a == b
  {
    if a != "" {
      var f, g, c, d := a[..|a| - 1], b[..|b| - 1], a[|a| - 1], b[|b| - 1];
      assert a == f + [c] && b == g + [d];
      SameLength(f, g);
      LessAtEnd(a, b);
      StringLessTotal(f, g);
    }
    hide StringLess;
  }

  lemma {:induction false} LongerIsMore(a: string, b: string)
    requires |a| < |b| && b[0] != '0' && AllDigits(a) && AllDigits(b)
    ensures Value(a) < Value(b)
  {
    if a == "" {
      LeadingDigit(b);
    } else {
      var f, g, c, d := a[..|a| - 1], b[..|b| - 1], a[|a| - 1], b[|b| - 1];
      LongerIsMore(f, g);
    }
  }

  /** Digit strings stand in the order of their values exactly as the texts say. */
  lemma NumberOrder(a: string, b: string)
    requires AsciiDigits(a) && AsciiDigits(b)
    ensures Value(a) < Value(b) <==> NumberLess(a, b)
    ensures Value(a) == Value(b) <==> WithoutZeros(a) == WithoutZeros(b)
  {
    ZerosAside(a);
    ZerosAside(b);
    var x, y := WithoutZeros(a), WithoutZeros(b);
    hide Value, StringLess, WithoutZeros;
    if |x| < |y| {
      LongerIsMore(x, y);
    } else if |y| < |x| {
      LongerIsMore(y, x);
    } else {
      SameLength(x, y);
    }
  }

  /** Among numbers written without leading zeros, length comes first and then the first differing digit. */
  lemma DecimalOrder(m: nat, n: nat)
    ensures m < n <==> |Decimal(m)| < |Decimal(n)| || (|Decimal(m)| == |Decimal(n)| && StringLess(Decimal(m), Decimal(n)))
    ensures m == n <==> Decimal(m) == Decimal(n)
  {
    DecimalReads(m);
    DecimalReads(n);
    var a, b := Decimal(m), Decimal(n);
    hide Value, StringLess, Decimal;
    if |a| < |b| {
      LongerIsMore(a, b);
    } else if |b| < |a| {
      LongerIsMore(b, a);
    } else {
      SameLength(a, b);
    }
  }
}
