/** Text as JavaScript sees it: a sequence of UTF-16 code units, surrogates included. */
module Utf16 {
  type Unit = u: int | 0 <= u < 0x1_0000

  type Text = seq<Unit>

  /** The code units of an ASCII literal. */
  function Units(s: string): (t: Text)
    requires forall i :: 0 <= i < |s| ==> s[i] as int < 0x80
    ensures |t| == |s|
    ensures forall i :: 0 <= i < |s| ==> t[i] == s[i] as int
  {
    seq(|s|, i requires 0 <= i < |s| => s[i] as int)
  }

  /** The order of `Array.prototype.sort` on strings: by code unit, a proper prefix first. */
  predicate UnitLess(a: Text, b: Text) {
    if a == [] then b != []
    else if b == [] then false
    else if a[0] != b[0] then a[0] < b[0]
    else UnitLess(a[1..], b[1..])
  }

  /** Code-unit order is a strict total order. */
  lemma {:induction false} UnitLessTotal(a: Text, b: Text)
    ensures UnitLess(a, b) || UnitLess(b, a) || a == b
    ensures !(UnitLess(a, b) && UnitLess(b, a))
    ensures UnitLess(a, b) ==> a != b
  {
    if a != [] && b != [] && a[0] == b[0] {
      UnitLessTotal(a[1..], b[1..]);
      assert a == [a[0]] + a[1..] && b == [b[0]] + b[1..];
    }
  }

  lemma {:induction false} UnitLessTransitive(a: Text, b: Text, c: Text)
    requires UnitLess(a, b) && UnitLess(b, c)
    ensures UnitLess(a, c)
  {
    if a != [] && b != [] && c != [] && a[0] == b[0] == c[0] {
      UnitLessTransitive(a[1..], b[1..], c[1..]);
    }
  }
}
