/**
  Money. Every stored amount is a whole number of cents; an amount that has
  not been rounded yet is a real number of cents, so `round2` of the
  program (two decimals of a currency unit) is rounding to a whole cent.
 */
module Money {

  /** `Math.round`: to the nearest integer, halves towards positive infinity. */
  function RoundCents(x: real): int {
    (x + 0.5).Floor
  }

  /** Rounding moves an amount by at most half a cent, and never a whole one. */
  lemma RoundError(x: real)
    ensures -0.5 < RoundCents(x) as real - x <= 0.5
  {
  }

  lemma RoundExact(n: int)
    ensures RoundCents(n as real) == n
  {
  }

  lemma RoundMonotone(x: real, y: real)
    requires x <= y
    ensures RoundCents(x) <= RoundCents(y)
  {
  }

  function Min(a: int, b: int): int {
    if a <= b then a else b
  }

  function Max(a: int, b: int): int {
    if a >= b then a else b
  }

  function Abs(a: int): nat {
    if a < 0 then -a else a
  }

  function Sum(s: seq<int>): int {
    if s == [] then 0 else s[0] + Sum(s[1..])
  }

  lemma {:induction false} SumConcat(s: seq<int>, t: seq<int>)
    ensures Sum(s + t) == Sum(s) + Sum(t)
  {
    if s == [] {
      assert s + t == t;
    } else {
      assert (s + t)[1..] == s[1..] + t;
      SumConcat(s[1..], t);
    }
  }

  lemma SumSnoc(s: seq<int>, x: int)
    ensures Sum(s + [x]) == Sum(s) + x
  {
    SumConcat(s, [x]);
    assert [x][1..] == [];
  }
}
