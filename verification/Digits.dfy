/** Decimal numerals, as `str(n)` and `f"{n:03d}"` write them. */
module Digits {

  predicate IsDigit(c: char) {
    '0' <= c <= '9'
  }

  predicate AllDigits(s: string) {
    forall i | 0 <= i < |s| :: IsDigit(s[i])
  }

  function Digit(n: nat): (c: char)
    requires n < 10
    ensures IsDigit(c) && c as int == '0' as int + n
  {
    ('0' as int + n) as char
  }

  function Decimal(n: nat): (s: string)
    ensures s != "" && AllDigits(s)
  {
    if n < 10 then [Digit(n)] else Decimal(n / 10) + [Digit(n % 10)]
  }

  /** The number a numeral stands for, leading zeros or not. */
  function Value(s: string): nat
    requires AllDigits(s)
  {
    if s == "" then 0 else 10 * Value(s[..|s| - 1]) + (s[|s| - 1] as int - '0' as int)
  }

  lemma {:induction false} ValueOfDecimal(n: nat)
    ensures Value(Decimal(n)) == n
  {
    var s := Decimal(n);
    if n < 10 {
      assert s[..0] == "";
    } else {
      ValueOfDecimal(n / 10);
      assert s[..|s| - 1] == Decimal(n / 10);
    }
  }

  /** Padded with zeros to three digits; longer numerals are left as they are. */
  function Padded(n: nat): (s: string)
    ensures |s| >= 3 && AllDigits(s)
  {
    var s := Decimal(n);
    if |s| == 1 then "00" + s else if |s| == 2 then "0" + s else s
  }

  lemma ZeroInFront(s: string)
    requires AllDigits(s)
    ensures AllDigits("0" + s) && Value("0" + s) == Value(s)
  {
    var z := "0" + s;
    if s == "" {
      assert z[..0] == "";
    } else {
      ZeroInFront(s[..|s| - 1]);
      assert z[..|z| - 1] == "0" + s[..|s| - 1];
    }
  }

  /** Reading a padded numeral gives the number back, so different numbers are written differently. */
  lemma ValueOfPadded(n: nat)
    ensures Value(Padded(n)) == n
  {
    var s := Decimal(n);
    ValueOfDecimal(n);
    ZeroInFront(s);
    ZeroInFront("0" + s);
    assert "0" + ("0" + s) == "00" + s;
  }

  /** Three digits, and more only for a thousand or above, then without a zero in front. */
  lemma PaddedLength(n: nat)
    ensures if n < 1000 then |Padded(n)| == 3 else |Padded(n)| > 3 && Padded(n)[0] != '0'
  {
    DecimalLength(n);
    DecimalLength(n / 10);
    DecimalLength(n / 100);
    DecimalLength(n / 1000);
  }

  lemma {:induction false} DecimalLength(n: nat)
    ensures |Decimal(n)| == if n < 10 then 1 else |Decimal(n / 10)| + 1
    ensures n > 0 ==> Decimal(n)[0] != '0'
  {
    if n >= 10 {
      DecimalLength(n / 10);
    }
  }

  lemma {:induction false} DecimalOfValue(s: string)
    requires AllDigits(s) && s != "" && s[0] != '0'
    ensures Decimal(Value(s)) == s && Value(s) > 0
  {
    var front := s[..|s| - 1];
    if front == "" {
      assert Value(front) == 0 && s == [s[0]];
    } else {
      DecimalOfValue(front);
      assert s == front + [s[|s| - 1]];
    }
  }

  /** A numeral of three digits or more that does not begin with a zero is how its number is written. */
  lemma PaddedOfValue(s: string)
    requires AllDigits(s) && |s| >= 3 && s[0] != '0'
    ensures Padded(Value(s)) == s
  {
    DecimalOfValue(s);
  }

  /** A text that ends in something else, followed by digits, can be taken apart in one way only. */
  lemma DigitsAtEnd(a: string, d: string, b: string, e: string)
    requires a + d == b + e && AllDigits(d) && AllDigits(e)
    requires a != "" && !IsDigit(a[|a| - 1]) && b != "" && !IsDigit(b[|b| - 1])
    ensures a == b && d == e
  {
    var s := a + d;
    assert s[|a| - 1] == a[|a| - 1] && s[|b| - 1] == b[|b| - 1];
    assert forall i | |a| <= i < |s| :: s[i] == d[i - |a|];
    assert forall i | |b| <= i < |s| :: s[i] == e[i - |b|];
    assert s[..|a|] == a && s[|a|..] == d && s[..|b|] == b && s[|b|..] == e;
  }
}
