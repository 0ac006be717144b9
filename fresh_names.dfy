/** Names of the variables that PutVariable creates: the letter V followed by
    the decimal form of the heap length, and the parser that reads the index
    back out of such a name. */
module FreshNames {
  import opened WamTypes

  predicate IsDigit(c: char) {
    '0' <= c <= '9'
  }

  function DigitChar(d: nat): (c: char)
    requires d < 10
    ensures IsDigit(c) && c as int - '0' as int == d
  {
    (d + '0' as int) as char
  }

  /** Decimal form of n, most significant digit first, without leading zeros. */
  function Decimal(n: nat): (s: string)
    ensures |s| >= 1
    ensures forall i :: 0 <= i < |s| ==> IsDigit(s[i])
    ensures |s| > 1 ==> s[0] != '0'
    decreases n
  {
    if n < 10 then [DigitChar(n)] else Decimal(n / 10) + [DigitChar(n % 10)]
  }

  /** Reads a non-empty string of decimal digits; None for anything else. */
  function ParseDecimal(s: string): Option<nat>
    decreases |s|
  {
    if |s| == 0 || !IsDigit(s[|s| - 1]) then None
    else
      var d := s[|s| - 1] as int - '0' as int;
      if |s| == 1 then Some(d)
      else match ParseDecimal(s[..|s| - 1])
        case None => None
        case Some(k) => Some(10 * k + d)
  }

  /** The name of the variable created when the heap holds n cells. */
  function FreshName(n: nat): string {
    "V" + Decimal(n)
  }

  /** The heap index a fresh-variable name stands for, if it is one. */
  function VariableIndex(name: string): Option<nat> {
    if |name| >= 1 && name[0] == 'V' then ParseDecimal(name[1..]) else None
  }

  lemma {:induction false} ParseDecimalOfDecimal(n: nat)
    ensures ParseDecimal(Decimal(n)) == Some(n)
    decreases n
  {
    var s := Decimal(n);
    if n >= 10 {
      assert s[..|s| - 1] == Decimal(n / 10);
      ParseDecimalOfDecimal(n / 10);
    }
  }

  /** Reading the index back out of a fresh name gives the heap length it was made from. */
  lemma VariableIndexOfFreshName(n: nat)
    ensures VariableIndex(FreshName(n)) == Some(n)
  {
    assert FreshName(n)[1..] == Decimal(n);
    ParseDecimalOfDecimal(n);
  }

  /** Different heap lengths never give the same name. */
  lemma FreshNameInjective(i: nat, j: nat)
    ensures FreshName(i) == FreshName(j) <==> i == j
  {
    VariableIndexOfFreshName(i);
    VariableIndexOfFreshName(j);
  }
}
