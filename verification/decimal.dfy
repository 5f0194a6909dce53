/**
 The decimal rendering of a non-negative integer, as JavaScript's
 `String(i)` and `Number.prototype.toString()` produce it. Slide ids are such
 strings, and the quiz compares them with `===`; the lemmas here let the rest of
 the model replace those string comparisons by comparisons of indices.
 */
module Decimal {

  /** The character of a single decimal digit. */
  function DigitChar(d: nat): (c: char)
    requires d < 10
    ensures '0' <= c <= '9'
    ensures c as int - '0' as int == d
  {
    ('0' as int + d) as char
  }

  /** Decimal digits of `n`, most significant first, without leading zeros. */
  function Show(n: nat): (s: string)
    ensures 1 <= |s|
    ensures n < 10 <==> |s| == 1
    ensures forall i :: 0 <= i < |s| ==> '0' <= s[i] <= '9'
    ensures s[|s| - 1] == DigitChar(n % 10)
    ensures s[0] == '0' ==> n == 0
    decreases n
  {
    if n < 10 then [DigitChar(n)] else Show(n / 10) + [DigitChar(n % 10)]
  }

  /** Reading the digits back: the value a decimal string stands for. */
  function Value(s: string): (n: nat)
    requires forall i :: 0 <= i < |s| ==> '0' <= s[i] <= '9'
    decreases |s|
  {
    if |s| == 0 then 0
    else 10 * Value(s[..|s| - 1]) + (s[|s| - 1] as int - '0' as int)
  }

  /** `Show` is inverted by `Value`: the rendering loses no information. */
  lemma {:induction false} ValueOfShow(n: nat)
    ensures Value(Show(n)) == n
    decreases n
  {
    var s := Show(n);
    if n < 10 {
      assert s[..0] == [];
    } else {
      ValueOfShow(n / 10);
      assert s[..|s| - 1] == Show(n / 10);
    }
  }

  /** Two indices render to the same string exactly when they are equal. */
  lemma ShowInjective(a: nat, b: nat)
    ensures Show(a) == Show(b) <==> a == b
  {
    if Show(a) == Show(b) {
      ValueOfShow(a);
      ValueOfShow(b);
    }
  }

  /** The literal `'0'` that the first-slide test compares against. */
  lemma ShowZero()
    ensures Show(0) == "0"
  {
  }
}
