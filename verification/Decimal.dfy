/** Numbers as they are formatted into messages. */
module Decimal {
  const DIGITS := "0123456789"

  function Formatted(n: nat): (s: string)
    ensures s != ""
  {
    if n < 10 then [DIGITS[n]] else Formatted(n / 10) + [DIGITS[n % 10]]
  }

  predicate IsDigit(c: char) {
    '0' <= c <= '9'
  }

  /** The number that digits stand for. */
  function Value(s: string): int {
    if s == "" then 0 else 10 * Value(s[..|s| - 1]) + (s[|s| - 1] as int - '0' as int)
  }

  /** What is formatted is the number, in digits, without zeros in front. */
  lemma {:induction false} FormattedIsTheNumber(n: nat)
    ensures Value(Formatted(n)) == n
    ensures forall c :: c in Formatted(n) ==> IsDigit(c)
    ensures Formatted(n)[0] == '0' ==> n == 0
  {
    var d := DIGITS[n % 10];
    assert IsDigit(d) && d as int - '0' as int == n % 10;
    if n < 10 {
      assert Formatted(n) == [d] && [d][..0] == "";
    } else {
      FormattedIsTheNumber(n / 10);
      assert Formatted(n)[..|Formatted(n)| - 1] == Formatted(n / 10);
    }
  }
}
