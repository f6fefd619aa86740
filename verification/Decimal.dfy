/** Decimal numerals, as cursor reports and generated client ids spell them. */
module Decimal {

  function Digit(d: nat): char
    requires d < 10
  {
    '0' + d as char
  }

  function Dec(n: nat): (s: string)
    ensures s != [] && forall i | 0 <= i < |s| :: '0' <= s[i] <= '9'
  {
    if n < 10 then [Digit(n)] else Dec(n / 10) + [Digit(n % 10)]
  }

  function Value(s: string): int {
    if s == [] then 0 else Value(s[..|s| - 1]) * 10 + (s[|s| - 1] as int - '0' as int)
  }

  lemma {:induction false} ValueOfDec(n: nat)
    ensures Value(Dec(n)) == n
  {
    if n >= 10 {
      ValueOfDec(n / 10);
      assert Dec(n)[..|Dec(n)| - 1] == Dec(n / 10);
    } else {
      assert Dec(n)[..0] == [];
    }
  }

  lemma DecInjective(m: nat, n: nat)
    requires Dec(m) == Dec(n)
    ensures m == n
  {
    ValueOfDec(m);
    ValueOfDec(n);
  }

  /** A numeral ends at the first character that is no digit. */
  lemma NumeralPrefix(m: nat, n: nat, c: char, u: string, v: string)
    requires !('0' <= c <= '9')
    requires Dec(m) + [c] + u == Dec(n) + [c] + v
    ensures m == n && u == v
  {
    var x, y := Dec(m), Dec(n);
    var whole := x + [c] + u;
    assert whole[|x|] == c && whole[|y|] == c;
    assert |x| == |y|;
    assert x == whole[..|x|] && y == whole[..|y|];
    assert u == whole[|x| + 1..] && v == whole[|y| + 1..];
    DecInjective(m, n);
  }
}
