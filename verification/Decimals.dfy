/** Decimal numerals, as `str(n)` and `f"{n:06d}"` print them. */
module Decimals {
  function Digit(d: nat): char
    requires d < 10
  {
    '0' + d as char
  }

  function Numeral(n: nat): (s: string)
    ensures |s| > 0 && AllDigits(s)
  {
    if n < 10 then [Digit(n)] else Numeral(n / 10) + [Digit(n % 10)]
  }

  predicate AllDigits(s: string) {
    forall i | 0 <= i < |s| :: '0' <= s[i] <= '9'
  }

  function Value(s: string): nat
    requires AllDigits(s)
  {
    if s == [] then 0 else 10 * Value(s[..|s| - 1]) + (s[|s| - 1] - '0') as nat
  }

  /** Padding on the left with zeros up to `width` digits. */
  function Padded(n: nat, width: nat): (s: string)
    ensures AllDigits(s) && |s| > 0
  {
    var digits := Numeral(n);
    if |digits| < width then seq(width - |digits|, _ => '0') + digits else digits
  }

  lemma {:induction false} NumeralValue(n: nat)
    ensures Value(Numeral(n)) == n
  {
    var s := Numeral(n);
    if n < 10 {
      assert s[..0] == [];
    } else {
      NumeralValue(n / 10);
      assert s[..|s| - 1] == Numeral(n / 10);
    }
  }

  lemma {:induction false} ZerosValue(k: nat, s: string)
    requires AllDigits(s)
    ensures AllDigits(seq(k, _ => '0') + s) && Value(seq(k, _ => '0') + s) == Value(s)
    decreases |s|, k
  {
    var zeros := seq(k, _ => '0');
    if s == [] {
      assert zeros + s == zeros;
      if k > 0 {
        assert zeros[..k - 1] == seq(k - 1, _ => '0');
        ZerosValue(k - 1, []);
        assert seq(k - 1, _ => '0') + [] == zeros[..k - 1];
      }
    } else {
      var init := s[..|s| - 1];
      ZerosValue(k, init);
      assert (zeros + s)[..|zeros + s| - 1] == zeros + init;
    }
  }

  lemma PaddedValue(n: nat, width: nat)
    ensures Value(Padded(n, width)) == n
    ensures |Padded(n, width)| == if |Numeral(n)| < width then width else |Numeral(n)|
  {
    NumeralValue(n);
    if |Numeral(n)| < width {
      ZerosValue(width - |Numeral(n)|, Numeral(n));
    }
  }
}
