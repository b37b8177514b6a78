/** Decimal numerals as text. */
module Decimal {
  import opened Utf16

  const ZERO: Unit := 48
  const NINE: Unit := 57

  predicate IsDigit(u: Unit) { ZERO <= u <= NINE }

  predicate AllDigits(t: Text) { forall i :: 0 <= i < |t| ==> IsDigit(t[i]) }

  /** The number a run of digits denotes; other units count as their distance from '0'. */
  function Value(t: Text): (n: int)
    ensures AllDigits(t) ==> n >= 0
  {
    if t == [] then 0 else Value(t[..|t| - 1]) * 10 + (t[|t| - 1] - ZERO)
  }

  /** The decimal numeral of `n`, without leading zeros. */
  function Numeral(n: nat): (t: Text)
    ensures t != [] && AllDigits(t)
  {
    if n < 10 then [ZERO + n] else Numeral(n / 10) + [ZERO + n % 10]
  }

  predicate IsNumeral(t: Text) {
    t != [] && AllDigits(t) && (|t| > 1 ==> t[0] != ZERO)
  }

  lemma {:induction false} ValueOfNumeral(n: nat)
    ensures Value(Numeral(n)) == n
    ensures IsNumeral(Numeral(n))
    ensures n > 0 ==> Numeral(n)[0] != ZERO
  {
    if n >= 10 {
      ValueOfNumeral(n / 10);
      assert Numeral(n)[..|Numeral(n)| - 1] == Numeral(n / 10);
    }
  }

  lemma {:induction false} NumeralOfValue(t: Text)
    requires IsNumeral(t)
    ensures Value(t) >= 0 && Numeral(Value(t)) == t
    ensures t[0] != ZERO ==> Value(t) > 0
  {
    var front, last := t[..|t| - 1], t[|t| - 1];
    assert t == front + [last];
    if front == [] {
      assert Value(t) == last - ZERO;
    } else {
      NumeralOfValue(front);
      assert Value(t) / 10 == Value(front) && Value(t) % 10 == last - ZERO;
    }
  }
}
