/** Decimal digits: printing and reading back. */
module Decimal {
  function DigitChar(d: nat): char
    requires d < 10
  {
    ('0' as int + d) as char
  }

  function DigitValue(c: char): int { c as int - '0' as int }

  function Digits(n: nat): (s: string)
    ensures |s| >= 1
  {
    if n < 10 then [DigitChar(n)] else Digits(n / 10) + [DigitChar(n % 10)]
  }

  function Value(s: string): int {
    if s == [] then 0 else 10 * Value(s[..|s| - 1]) + DigitValue(s[|s| - 1])
  }

  function Zeros(k: nat): (s: string)
    ensures |s| == k
  {
    if k == 0 then [] else Zeros(k - 1) + ['0']
  }

  lemma {:induction false} ReadDigits(n: nat)
    ensures Value(Digits(n)) == n
  {
    if n >= 10 {
      ReadDigits(n / 10);
      assert Digits(n)[..|Digits(n)| - 1] == Digits(n / 10);
    } else {
      assert Digits(n)[..0] == [];
    }
  }

  lemma {:induction false} ValueOfConcat(a: string, b: string)
    requires Value(a) == 0
    ensures Value(a + b) == Value(b)
  {
    if b == [] {
      assert a + b == a;
    } else {
      assert (a + b)[..|a + b| - 1] == a + b[..|b| - 1];
      ValueOfConcat(a, b[..|b| - 1]);
    }
  }

  lemma {:induction false} ZerosAreZero(k: nat)
    ensures Value(Zeros(k)) == 0
  {
    if k > 0 {
      ZerosAreZero(k - 1);
      assert Zeros(k)[..k - 1] == Zeros(k - 1);
    }
  }

  /** n in decimal, with leading zeros up to the given width. */
  function Padded(n: nat, width: nat): string {
    var s := Digits(n);
    if |s| >= width then s else Zeros(width - |s|) + s
  }

  /** Reading gives the number back, however many digits it has. */
  lemma ReadPadded(n: nat, width: nat)
    ensures Value(Padded(n, width)) == n
  {
    ReadDigits(n);
    var k := width - |Digits(n)|;
    if k > 0 {
      ZerosAreZero(k);
      ValueOfConcat(Zeros(k), Digits(n));
    }
  }

  function Pow10(k: nat): nat { if k == 0 then 1 else 10 * Pow10(k - 1) }

  /** A number below a power of ten has at most that many digits. */
  lemma {:induction false} DigitCount(n: nat, k: nat)
    requires k >= 1 && n < Pow10(k)
    ensures |Digits(n)| <= k
  {
    if n >= 10 {
      assert k > 1;
      DigitCount(n / 10, k - 1);
    }
  }

  lemma PowersArePositive(k: nat)
    ensures Pow10(k) >= 1
  {
    if k > 0 {
      PowersArePositive(k - 1);
    }
  }

  lemma {:induction false} ManyDigits(n: nat, k: nat)
    requires k >= 1 && n >= Pow10(k - 1)
    ensures |Digits(n)| >= k
  {
    if k > 1 {
      PowersArePositive(k - 2);
      ManyDigits(n / 10, k - 1);
    }
  }
}
