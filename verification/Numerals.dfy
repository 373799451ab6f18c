/** Decimal numerals. */
module Numerals {

  predicate IsDigit(c: char) {
    '0' <= c <= '9'
  }

  /** The value of a run of digits; anything that is not a digit counts as zero. */
  function NumberOf(s: string): nat {
    if s == [] then 0
    else NumberOf(s[..|s| - 1]) * 10 + ValueOf(s[|s| - 1])
  }

  function ValueOf(c: char): nat {
    if IsDigit(c) then c as nat - '0' as nat else 0
  }

  function DigitsOf(n: nat): (s: string)
    ensures s != [] && forall i | 0 <= i < |s| :: IsDigit(s[i])
    ensures NumberOf(s) == n
    decreases n
  {
    var last := ['0' + (n % 10) as char];
    if n < 10 then last else DigitsOf(n / 10) + last
  }

  function PowerOfTen(n: nat): nat {
    if n == 0 then 1 else 10 * PowerOfTen(n - 1)
  }

  /** Every digit counts at its place. */
  lemma {:induction false} Positional(a: string, b: string)
    ensures NumberOf(a + b) == NumberOf(a) * PowerOfTen(|b|) + NumberOf(b)
    decreases |b|
  {
    hide ValueOf;
    if b == [] {
      assert a + b == a;
    } else {
      var front := b[..|b| - 1];
      assert (a + b)[..|a + b| - 1] == a + front;
      Positional(a, front);
      OneDigitMore(NumberOf(a), PowerOfTen(|front|), NumberOf(front));
    }
  }

  lemma OneDigitMore(n: nat, p: nat, f: nat)
    ensures (n * p + f) * 10 == n * (10 * p) + f * 10
  {
  }
}
