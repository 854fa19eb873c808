/** Decimal numerals. */
module Decimals {
  predicate IsDigit(c: char) {
    '0' <= c <= '9'
  }

  function Digit(n: nat): (c: char)
    requires n < 10
    ensures IsDigit(c) && c as int - '0' as int == n
  {
    ('0' as int + n) as char
  }

  function Digits(n: nat): (s: string)
    ensures |s| > 0 && forall i :: 0 <= i < |s| ==> IsDigit(s[i])
  {
    if n < 10 then [Digit(n)] else Digits(n / 10) + [Digit(n % 10)]
  }

  function Zeros(n: nat): (s: string)
    ensures |s| == n && forall i :: 0 <= i < |s| ==> s[i] == '0'
  {
    seq(n, i => '0')
  }

  /** At least four digits. */
  function Padded(n: nat): string {
    if |Digits(n)| < 4 then Zeros(4 - |Digits(n)|) + Digits(n) else Digits(n)
  }

  function Power(d: nat): nat {
    if d == 0 then 1 else 10 * Power(d - 1)
  }

  function Value(s: string): int {
    if s == [] then 0 else Value(s[..|s| - 1]) * 10 + (s[|s| - 1] as int - '0' as int)
  }

  lemma {:induction false} DigitsRead(n: nat)
    ensures Value(Digits(n)) == n
  {
    if n >= 10 {
      DigitsRead(n / 10);
      assert Digits(n)[..|Digits(n)| - 1] == Digits(n / 10);
    } else {
      assert Digits(n)[..0] == [];
    }
  }

  lemma {:induction false} ZerosRead(k: nat, s: string)
    ensures Value(Zeros(k) + s) == Value(s)
    decreases k + |s|
  {
    var whole := Zeros(k) + s;
    if s != [] {
      ZerosRead(k, s[..|s| - 1]);
      assert whole[..|whole| - 1] == Zeros(k) + s[..|s| - 1];
    } else if k > 0 {
      ZerosRead(k - 1, []);
      assert whole[..|whole| - 1] == Zeros(k - 1) + [];
    }
  }

  /** Padding loses nothing. */
  lemma PaddedRead(n: nat)
    ensures Value(Padded(n)) == n
  {
    DigitsRead(n);
    if |Digits(n)| < 4 { ZerosRead(4 - |Digits(n)|, Digits(n)); }
  }

  lemma {:induction false} PowerGrows(d: nat)
    requires d > 0
    ensures Power(d) >= 10
  {
    if d == 1 {
    } else {
      PowerGrows(d - 1);
    }
  }

  /** How many digits a number has. */
  lemma {:induction false} DigitsBounded(n: nat, d: nat)
    requires d > 0
    ensures |Digits(n)| <= d <==> n < Power(d)
  {
    PowerGrows(d);
    if n >= 10 && d > 1 {
      DigitsBounded(n / 10, d - 1);
    } else if n >= 10 {
      assert Power(1) == 10 * Power(0);
    }
  }
}
