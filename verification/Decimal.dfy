/** Decimal text, as %llu and %d print it and strtoull(3) reads it. */
module Decimals {
  predicate IsDigit(c: char) {
    '0' <= c <= '9'
  }

  function Digit(d: nat): (c: char)
    requires d < 10
    ensures IsDigit(c) && DigitValue(c) == d
  {
    (d + '0' as int) as char
  }

  function DigitValue(c: char): nat {
    if IsDigit(c) then c as int - '0' as int else 0
  }

  function Decimal(n: nat): (s: string)
    ensures s != [] && forall i :: 0 <= i < |s| ==> IsDigit(s[i])
  {
    if n < 10 then [Digit(n)] else Decimal(n / 10) + [Digit(n % 10)]
  }

  /** %d */
  function SignedDecimal(n: int): string {
    if n < 0 then "-" + Decimal(-n) else Decimal(n)
  }

  function DecimalValue(s: string): nat {
    if s == [] then 0 else DecimalValue(s[..|s| - 1]) * 10 + DigitValue(s[|s| - 1])
  }

  lemma {:induction false} DecimalRoundTrip(n: nat)
    ensures DecimalValue(Decimal(n)) == n
  {
    var s := Decimal(n);
    if n < 10 {
      assert s[..0] == [];
    } else {
      DecimalRoundTrip(n / 10);
      assert s[..|s| - 1] == Decimal(n / 10);
    }
  }

  function Pow10(k: nat): (p: nat)
    ensures p > 0
  {
    if k == 0 then 1 else 10 * Pow10(k - 1)
  }

  lemma {:induction false} DecimalLength(n: nat, k: nat)
    requires 0 < k && n < Pow10(k)
    ensures |Decimal(n)| <= k
  {
    if n >= 10 {
      assert k > 1 && n / 10 < Pow10(k - 1);
      DecimalLength(n / 10, k - 1);
    }
  }

  const INT_MAX := 0x7FFF_FFFF
  const ULLONG_MAX := 0xFFFF_FFFF_FFFF_FFFF

  /** STRLEN_MAX_UNSIGNED and STRLEN_MAX_SIGNED for a type of this many bytes */
  function StrlenMaxUnsigned(bytes: nat): nat {
    bytes * 8 * 1233 / 4096 + 1
  }

  function StrlenMaxSigned(bytes: nat): nat {
    StrlenMaxUnsigned(bytes) + if bytes == 8 then 0 else 1
  }

  lemma {:induction false} Pow10Values()
    ensures Pow10(10) == 10_000_000_000 && Pow10(20) == 100_000_000_000_000_000_000
  {
    assert Pow10(2) == 100 && Pow10(4) == 10_000 && Pow10(6) == 1_000_000 && Pow10(8) == 100_000_000;
    assert Pow10(10) == 10_000_000_000 && Pow10(12) == 1_000_000_000_000 && Pow10(14) == 100_000_000_000_000;
    assert Pow10(16) == 10_000_000_000_000_000 && Pow10(18) == 1_000_000_000_000_000_000;
  }

  /** No 64-bit number and no int is longer than the macros say. */
  lemma {:induction false} WidthsSuffice(n: nat, d: int)
    requires n <= ULLONG_MAX && -INT_MAX - 1 <= d <= INT_MAX
    ensures |Decimal(n)| <= StrlenMaxUnsigned(8) && |SignedDecimal(d)| <= StrlenMaxSigned(4)
  {
    Pow10Values();
    DecimalLength(n, 20);
    DecimalLength(if d < 0 then -d else d, 10);
  }
}
