/** Decimal numerals. */
module Digits {
  predicate IsDigit(c: char) {
    '0' <= c <= '9'
  }

  predicate AllDigits(s: string) {
    forall i :: 0 <= i < |s| ==> IsDigit(s[i])
  }

  function DigitValue(c: char): nat
    requires IsDigit(c)
  {
    c as int - '0' as int
  }

  function DigitChar(n: nat): (c: char)
    requires n < 10
    ensures IsDigit(c) && DigitValue(c) == n
  {
    '0' + n as char
  }

  function Numeral(n: nat): (s: string)
    ensures s != [] && AllDigits(s)
  {
    if n < 10 then [DigitChar(n)] else Numeral(n / 10) + [DigitChar(n % 10)]
  }

  function ValueOf(s: string): nat
    requires AllDigits(s)
  {
    if s == [] then 0 else 10 * ValueOf(s[..|s| - 1]) + DigitValue(s[|s| - 1])
  }

  lemma {:induction false} NumeralValue(n: nat)
    ensures ValueOf(Numeral(n)) == n
  {
    if n >= 10 {
      NumeralValue(n / 10);
      var s := Numeral(n);
      assert s[..|s| - 1] == Numeral(n / 10);
    }
  }

  /** At least three digits, with leading zeros. */
  function Padded(n: nat): (s: string)
    ensures AllDigits(s)
  {
    var s := Numeral(n);
    if |s| >= 3 then s else if |s| == 2 then "0" + s else "00" + s
  }

  lemma {:induction false} LeadingZero(s: string)
    requires AllDigits(s)
    ensures AllDigits("0" + s) && ValueOf("0" + s) == ValueOf(s)
    decreases |s|
  {
    var t := "0" + s;
    if s == [] {
      assert t[..0] == [];
    } else {
      LeadingZero(s[..|s| - 1]);
      assert t[..|t| - 1] == "0" + s[..|s| - 1];
    }
  }

  lemma {:induction false} PaddedValue(n: nat)
    ensures ValueOf(Padded(n)) == n
  {
    hide Numeral, ValueOf;
    NumeralValue(n);
    var s := Numeral(n);
    LeadingZero(s);
    LeadingZero("0" + s);
    assert "0" + ("0" + s) == "00" + s;
  }

  lemma {:induction false} FirstDigit(a: string, x: string)
    requires AllDigits(a)
    ensures IsDigit((a + "_" + x)[0]) <==> a != []
  {
    assert (a + "_" + x)[0] == if a == [] then '_' else a[0];
  }

  /** Digits before an underscore are determined by the whole text. */
  lemma {:induction false} DigitsBefore(a: string, x: string, b: string, y: string)
    requires AllDigits(a) && AllDigits(b) && a + "_" + x == b + "_" + y
    ensures a == b && x == y
  {
    var s, t := a + "_" + x, b + "_" + y;
    FirstDigit(a, x);
    FirstDigit(b, y);
    if a == [] {
      assert s[1..] == x && t[1..] == y;
    } else {
      assert s[0] == a[0] && t[0] == b[0];
      assert s[1..] == a[1..] + "_" + x && t[1..] == b[1..] + "_" + y;
      DigitsBefore(a[1..], x, b[1..], y);
      assert a == [a[0]] + a[1..] && b == [b[0]] + b[1..];
    }
  }

  function Power10(k: nat): (n: nat)
    ensures n > 0
  {
    if k == 0 then 1 else 10 * Power10(k - 1)
  }

  lemma {:induction false} PowerSum(a: nat, b: nat)
    ensures Power10(a + b) == Power10(a) * Power10(b)
  {
    if a > 0 { PowerSum(a - 1, b); }
  }

  lemma {:induction false} PowerGrows(a: nat, b: nat)
    requires a <= b
    ensures Power10(a) <= Power10(b)
  {
    if a < b { PowerGrows(a, b - 1); }
  }

  lemma {:induction false} PowerOne()
    ensures Power10(1) == 10 && Power10(0) == 1
  {
    assert Power10(1) == 10 * Power10(0);
  }

  /** A numeral has at most `k` digits exactly when its number is below the power of ten. */
  lemma {:induction false} NumeralLength(n: nat, k: nat)
    requires k > 0
    ensures |Numeral(n)| <= k <==> n < Power10(k)
  {
    PowerOne();
    PowerGrows(1, k);
    if n >= 10 && k > 1 { NumeralLength(n / 10, k - 1); }
  }

  // ---------------------------------------------------------------- all numerals of a number

  function Zeros(k: nat): (s: string)
    ensures AllDigits(s) && |s| == k
  {
    if k == 0 then [] else Zeros(k - 1) + "0"
  }

  /** Digits are the numeral of their value behind zeros. */
  lemma {:induction false} DigitsSpell(s: string) returns (k: nat)
    requires AllDigits(s) && s != []
    ensures s == Zeros(k) + Numeral(ValueOf(s))
  {
    var front, c := s[..|s| - 1], s[|s| - 1];
    assert s == front + [c];
    if front == [] {
      k := 0;
    } else {
      k := DigitsSpell(front);
      if ValueOf(front) == 0 {
        assert front == Zeros(k + 1);
        k := k + 1;
      } else {
        assert ValueOf(s) / 10 == ValueOf(front) && ValueOf(s) % 10 == DigitValue(c);
        assert Zeros(k) + (Numeral(ValueOf(front)) + [c]) == (Zeros(k) + Numeral(ValueOf(front))) + [c];
      }
    }
  }

  lemma {:induction false} ZerosWorthless(k: nat, s: string)
    requires AllDigits(s)
    ensures AllDigits(Zeros(k) + s) && ValueOf(Zeros(k) + s) == ValueOf(s)
  {
    if k == 0 {
      assert Zeros(0) + s == s;
    } else {
      LeadingZero(s);
      ZerosWorthless(k - 1, "0" + s);
      assert Zeros(k) + s == Zeros(k - 1) + ("0" + s);
    }
  }
}
