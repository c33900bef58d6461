/** String helpers shared by the reviver and the connection-string code. */
module Strings {

  predicate StartsWith(s: string, prefix: string)
  {
    |prefix| <= |s| && s[..|prefix|] == prefix
  }

  /** JavaScript's `String.prototype.includes`. */
  predicate Contains(s: string, t: string)
  {
    exists i | 0 <= i <= |s| :: StartsWith(s[i..], t)
  }

  predicate IsDigit(c: char)
  {
    '0' <= c <= '9'
  }

  /** Index of the first occurrence of `c` at or after `from`, or `|s|` when there is none. */
  function IndexFrom(s: string, c: char, from: nat): (q: nat)
    requires from <= |s|
    ensures from <= q <= |s|
    ensures q < |s| ==> s[q] == c
    ensures forall t :: from <= t < q ==> s[t] != c
    decreases |s| - from
  {
    if from == |s| || s[from] == c then from else IndexFrom(s, c, from + 1)
  }

  /** In x + [c] + y, the first `c` at or after `from` is the separator, when x holds none from there on. */
  lemma IndexOfSeparator(x: string, c: char, y: string, from: nat)
    requires from <= |x|
    requires forall t :: from <= t < |x| ==> x[t] != c
    ensures IndexFrom(x + [c] + y, c, from) == |x|
  {
    var s := x + [c] + y;
    assert s[|x|] == c;
    forall t | from <= t < |x|
      ensures s[t] != c
    {
      assert s[t] == x[t];
    }
  }

  function DigitChar(d: nat): char
    requires d < 10
  {
    "0123456789"[d]
  }

  /** Decimal text of a natural number, as JavaScript's `String(n)` writes it. */
  function NatToString(n: nat): (s: string)
    ensures |s| >= 1
    ensures forall i :: 0 <= i < |s| ==> IsDigit(s[i])
    decreases n
  {
    if n < 10 then [DigitChar(n)] else NatToString(n / 10) + [DigitChar(n % 10)]
  }

  /** Decimal text of an integer; a negative number gets a leading minus sign. */
  function IntToString(n: int): (s: string)
    ensures n >= 0 ==> forall i :: 0 <= i < |s| ==> IsDigit(s[i])
    ensures n < 0 ==> |s| >= 2 && s[0] == '-'
  {
    if n < 0 then "-" + NatToString(-n) else NatToString(n)
  }
}
