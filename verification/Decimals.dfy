/** Decimal numbers as the store and the JSON printer write and read them. */
module Decimals {
  predicate IsDigit(c: char) { '0' <= c <= '9' }

  function Digit(d: nat): char
    requires d < 10
  {
    '0' + d as char
  }

  function Decimal(n: nat): (s: string)
    ensures |s| > 0 && IsDigit(s[0])
  {
    if n < 10 then [Digit(n)] else Decimal(n / 10) + [Digit(n % 10)]
  }

  /** The number whose digits so far are `n`, and what follows it. */
  function ReadDigits(s: string, n: nat): (r: (nat, string))
    ensures |r.1| <= |s|
  {
    if |s| > 0 && IsDigit(s[0]) then ReadDigits(s[1..], 10 * n + (s[0] - '0') as nat) else (n, s)
  }

  lemma {:induction false} ReadDecimal(n: nat, rest: string)
    ensures ReadDigits(Decimal(n) + rest, 0) == ReadDigits(rest, n)
  {
    if n < 10 {
      assert (Decimal(n) + rest)[1..] == rest;
    } else {
      var last := [Digit(n % 10)];
      assert Decimal(n) + rest == Decimal(n / 10) + (last + rest);
      ReadDecimal(n / 10, last + rest);
      assert (last + rest)[1..] == rest;
    }
  }

  lemma {:induction false} AllDigits(n: nat)
    ensures forall i :: 0 <= i < |Decimal(n)| ==> IsDigit(Decimal(n)[i])
  {
    if n >= 10 { AllDigits(n / 10); }
  }

  /** What a row of digits is worth in the decimal system. */
  function Worth(s: string): int {
    if |s| == 0 then 0 else 10 * Worth(s[..|s| - 1]) + (s[|s| - 1] as int - '0' as int)
  }

  /** A printed number is worth the number, and has no leading zero. */
  lemma {:induction false} DecimalWorth(n: nat)
    ensures Worth(Decimal(n)) == n && (n > 0 ==> Decimal(n)[0] != '0')
  {
    if n < 10 {
      assert [Digit(n)][..0] == "";
    } else {
      DecimalWorth(n / 10);
      assert Decimal(n)[..|Decimal(n)| - 1] == Decimal(n / 10);
    }
  }
}
