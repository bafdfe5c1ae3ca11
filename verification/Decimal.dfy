/** Decimal text of a natural number, as `%u` prints it, and its inverse. */
module Decimal {

  predicate IsDigit(c: char) { '0' <= c <= '9' }

  function DigitChar(d: nat): (c: char)
    requires d < 10
    ensures IsDigit(c) && DigitValue(c) == d
  {
    '0' + d as char
  }

  function DigitValue(c: char): nat
    requires IsDigit(c)
  {
    c as int - '0' as int
  }

  function Print(n: nat): string {
    if n < 10 then [DigitChar(n)] else Print(n / 10) + [DigitChar(n % 10)]
  }

  predicate AllDigits(s: string) { forall i :: 0 <= i < |s| ==> IsDigit(s[i]) }

  /** A number without leading zeros. */
  predicate IsDecimal(s: string) {
    |s| > 0 && AllDigits(s) && (|s| > 1 ==> s[0] != '0')
  }

  function Parse(s: string): nat
    requires AllDigits(s)
  {
    if |s| == 0 then 0 else Parse(s[..|s| - 1]) * 10 + DigitValue(s[|s| - 1])
  }

  lemma {:induction false} ParsePrint(n: nat)
    ensures IsDecimal(Print(n)) && Parse(Print(n)) == n
    ensures n > 0 ==> Print(n)[0] != '0'
  {
    if n >= 10 {
      ParsePrint(n / 10);
      assert Print(n)[..|Print(n)| - 1] == Print(n / 10);
      assert Print(n)[0] == Print(n / 10)[0];
    } else {
      assert Print(n)[..0] == [];
    }
  }

  lemma {:induction false} PrintParse(s: string)
    requires IsDecimal(s)
    ensures Print(Parse(s)) == s
    ensures s[0] != '0' ==> Parse(s) > 0
    decreases |s|
  {
    var front, last := s[..|s| - 1], s[|s| - 1];
    if |s| == 1 {
      assert Parse(front) == 0;
      assert DigitChar(DigitValue(last)) == last;
    } else {
      assert front[0] == s[0];
      PrintParse(front);
      assert Parse(s) / 10 == Parse(front) && Parse(s) % 10 == DigitValue(last);
      assert DigitChar(DigitValue(last)) == last;
      assert s == front + [last];
    }
  }

  /** Printing never repeats a text. */
  lemma PrintIsInjective(m: nat, n: nat)
    requires Print(m) == Print(n)
    ensures m == n
  {
    ParsePrint(m);
    ParsePrint(n);
  }

  predicate IsPowerOfTen(n: nat) {
    n == 1 || (n >= 10 && n % 10 == 0 && IsPowerOfTen(n / 10))
  }

  lemma {:induction false} PrintGrows(m: nat, n: nat)
    requires m <= n
    ensures |Print(m)| <= |Print(n)|
    decreases n
  {
    if m >= 10 { PrintGrows(m / 10, n / 10); }
  }

  /** The text gets longer only on reaching a power of ten. */
  lemma {:induction false} LengthStepsAtPowersOfTen(n: nat)
    requires n > 0
    ensures |Print(n)| > |Print(n - 1)| ==> n >= 10 && IsPowerOfTen(n)
  {
    if n >= 10 {
      if n % 10 != 0 {
        assert (n - 1) / 10 == n / 10;
      } else {
        assert (n - 1) / 10 == n / 10 - 1;
        LengthStepsAtPowersOfTen(n / 10);
      }
    }
  }
}
