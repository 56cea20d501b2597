/**
  Concentration of credit: Herfindahl-Hirschman index, Gini coefficient and top-N
  ratios over exposures per customer.
 */
module Concentration {
  import opened Money

  /** Exposures that survived the filter, in cents. */
  ghost predicate Exposures(e: seq<int>) {
    e != [] && forall i :: 0 <= i < |e| ==> e[i] > 0
  }

  predicate AllEqual(e: seq<int>) {
    forall i :: 0 <= i < |e| ==> e[i] == e[0]
  }

  // ---- sums taken from the back, as the loops do ----------------------------

  function Acc(e: seq<int>): int {
    if e == [] then 0 else Acc(e[..|e| - 1]) + e[|e| - 1]
  }

  function Square(x: int): int { x * x }

  function SumSquares(e: seq<int>): int {
    if e == [] then 0 else SumSquares(e[..|e| - 1]) + Square(e[|e| - 1])
  }

  /** Sum of |x - y| over y in e. */
  function AbsDist(e: seq<int>, x: int): int {
    if e == [] then 0 else AbsDist(e[..|e| - 1], x) + Abs(x - e[|e| - 1])
  }

  /** Sum of |x - y| over x in a and y in b. */
  function PairSum(a: seq<int>, b: seq<int>): int {
    if a == [] then 0 else PairSum(a[..|a| - 1], b) + AbsDist(b, a[|a| - 1])
  }

  /** Sum of squared distances to x. */
  function SqDist(e: seq<int>, x: int): int {
    if e == [] then 0 else SqDist(e[..|e| - 1], x) + Square(e[|e| - 1] - x)
  }

  // ---- HHI --------------------------------------------------------------

  function Share(v: int, total: int): real
    requires total > 0
  {
    v as real / total as real
  }

  /** Sum of squared shares. */
  function SumSquaredShares(e: seq<int>, total: int): real
    requires total > 0
  {
    if e == [] then 0.0 else SumSquaredShares(e[..|e| - 1], total) + Share(e[|e| - 1], total) * Share(e[|e| - 1], total)
  }

  function Hhi(e: seq<int>): real
    requires Acc(e) > 0
  {
    SumSquaredShares(e, Acc(e))
  }

  lemma ShareSquared(v: int, total: int)
    requires total > 0
    ensures Share(v, total) * Share(v, total) * Square(total) as real == Square(v) as real
  {
    var s, t := Share(v, total), total as real;
    assert s * t == v as real;
    assert s * s * (t * t) == (s * t) * (s * t);
    assert (v * v) as real == v as real * v as real && (total * total) as real == t * t;
  }

  lemma {:induction false} SharesAreSquares(e: seq<int>, total: int)
    requires total > 0
    ensures SumSquaredShares(e, total) * Square(total) as real == SumSquares(e) as real
  {
    if e != [] {
      var x := e[|e| - 1];
      SharesAreSquares(e[..|e| - 1], total);
      ShareSquared(x, total);
      Distribute(SumSquaredShares(e[..|e| - 1], total), Share(x, total) * Share(x, total), Square(total) as real);
    }
  }

  lemma Distribute(x: real, y: real, z: real)
    ensures (x + y) * z == x * z + y * z
  {
  }

  /** n times the sum of squares exceeds the squared sum by the pairwise spread. */
  function Spread(e: seq<int>): int {
    if e == [] then 0 else Spread(e[..|e| - 1]) + SqDist(e[..|e| - 1], e[|e| - 1])
  }

  lemma SquareOfDifference(x: int, y: int)
    ensures Square(x - y) == Square(x) - 2 * (x * y) + Square(y)
  {
  }

  lemma {:induction false} SqDistExpands(e: seq<int>, x: int)
    ensures SqDist(e, x) == SumSquares(e) - 2 * (Acc(e) * x) + |e| * Square(x)
  {
    if e != [] {
      var y, n := e[|e| - 1], |e| - 1;
      SqDistExpands(e[..n], x);
      SquareOfDifference(y, x);
      IntDistribute(Acc(e[..n]), y, x);
      IntDistribute(n, 1, Square(x));
    }
  }

  lemma IntDistribute(x: int, y: int, z: int)
    ensures (x + y) * z == x * z + y * z
  {
  }

  lemma {:induction false} SpreadIdentity(e: seq<int>)
    ensures |e| * SumSquares(e) == Square(Acc(e)) + Spread(e)
  {
    if e != [] {
      var n, x := |e| - 1, e[|e| - 1];
      var t, s := Acc(e[..n]), SumSquares(e[..n]);
      SpreadIdentity(e[..n]);
      SqDistExpands(e[..n], x);
      OneMore(n, s, t, x);
    }
  }

  lemma OneMore(n: int, s: int, t: int, x: int)
    ensures (n + 1) * (s + Square(x)) == n * s + s + n * Square(x) + Square(x)
    ensures Square(t + x) == Square(t) + 2 * (t * x) + Square(x)
  {
  }

  lemma {:induction false} SqDistSign(e: seq<int>, x: int)
    ensures SqDist(e, x) >= 0
    ensures SqDist(e, x) == 0 <==> forall i :: 0 <= i < |e| ==> e[i] == x
  {
    if e != [] {
      SqDistSign(e[..|e| - 1], x);
      SquareSign(e[|e| - 1] - x);
    }
  }

  lemma SquareSign(d: int)
    ensures Square(d) >= 0 && (Square(d) == 0 <==> d == 0)
  {
  }

  lemma {:induction false} SpreadSign(e: seq<int>)
    ensures Spread(e) >= 0
    ensures Spread(e) == 0 <==> AllEqual(e)
  {
    if e != [] {
      var b, x := e[..|e| - 1], e[|e| - 1];
      SpreadSign(b);
      SqDistSign(b, x);
      if b != [] {
        assert AllEqual(e) <==> AllEqual(b) && b[0] == x;
      }
    }
  }

  lemma {:induction false} SquaresBelowSquare(e: seq<int>)
    requires forall i :: 0 <= i < |e| ==> e[i] > 0
    ensures Acc(e) >= |e| && SumSquares(e) <= Square(Acc(e))
    ensures |e| >= 1 ==> (SumSquares(e) == Square(Acc(e)) <==> |e| == 1)
  {
    if e != [] {
      var n, x := |e| - 1, e[|e| - 1];
      SquaresBelowSquare(e[..n]);
      OneMore(n, 0, Acc(e[..n]), x);
      if n > 0 {
        PositiveProduct(Acc(e[..n]), x);
      }
    }
  }

  lemma PositiveProduct(x: int, y: int)
    requires x > 0 && y > 0
    ensures x * y > 0
  {
  }

  /** For n exposures the index lies in [1/n, 1]: 1/n exactly when they are all equal, 1 exactly when there is one. */
  lemma HhiBounds(e: seq<int>)
    requires Exposures(e)
    ensures Acc(e) > 0
    ensures 1.0 / |e| as real <= Hhi(e) <= 1.0
    ensures Hhi(e) == 1.0 / |e| as real <==> AllEqual(e)
    ensures Hhi(e) == 1.0 <==> |e| == 1
  {
    hide Hhi, Acc, SumSquares, Square, Spread, AllEqual;
    SquaresBelowSquare(e);
    HhiTimesSquare(e);
    SpreadIdentity(e);
    SpreadSign(e);
    FractionBounds(Hhi(e), |e|, SumSquares(e), Square(Acc(e)), Spread(e));
  }

  lemma HhiTimesSquare(e: seq<int>)
    requires Acc(e) > 0
    ensures Square(Acc(e)) > 0 && Hhi(e) * Square(Acc(e)) as real == SumSquares(e) as real
  {
    SharesAreSquares(e, Acc(e));
    PositiveProduct(Acc(e), Acc(e));
  }

  lemma FractionBounds(h: real, n: int, s: int, q: int, spread: int)
    requires n > 0 && q > 0 && h * q as real == s as real && n * s == q + spread && spread >= 0 && s <= q
    ensures 1.0 / n as real <= h <= 1.0
    ensures h == 1.0 / n as real <==> spread == 0
    ensures h == 1.0 <==> s == q
  {
    var m, r := n as real, q as real;
    assert m * s as real == r + spread as real;
    assert m * h * r == m * (h * r);
    assert (m * h - 1.0) * r == spread as real;
    CompareProducts(m * h - 1.0, r, spread as real);
    CompareProducts(1.0 - h, r, (q - s) as real);
    assert 1.0 / m * m == 1.0;
    CompareProducts(h - 1.0 / m, m, m * h - 1.0);
  }

  lemma CompareProducts(x: real, r: real, p: real)
    requires r > 0.0 && x * r == p
    ensures x >= 0.0 <==> p >= 0.0
    ensures x == 0.0 <==> p == 0.0
  {
  }

  // ---- Gini -------------------------------------------------------------

  lemma {:induction false} PairSumSnocRight(a: seq<int>, b: seq<int>, x: int)
    ensures PairSum(a, b + [x]) == PairSum(a, b) + AbsDist(a, x)
  {
    if a != [] {
      var y := a[|a| - 1];
      PairSumSnocRight(a[..|a| - 1], b, x);
      assert (b + [x])[..|b|] == b;
      assert AbsDist(b + [x], y) == AbsDist(b, y) + Abs(y - x);
    }
  }

  lemma PairSumSnoc(e: seq<int>, x: int)
    ensures PairSum(e + [x], e + [x]) == PairSum(e, e) + 2 * AbsDist(e, x)
  {
    assert (e + [x])[..|e|] == e;
    PairSumSnocRight(e, e, x);
    assert AbsDist(e + [x], x) == AbsDist(e, x) + Abs(x - x);
  }

  lemma {:induction false} AbsDistBounds(e: seq<int>, x: int)
    requires x > 0 && forall i :: 0 <= i < |e| ==> e[i] > 0
    ensures 0 <= AbsDist(e, x) <= Acc(e) + |e| * x
    ensures AbsDist(e, x) == 0 <==> forall i :: 0 <= i < |e| ==> e[i] == x
  {
    if e != [] {
      AbsDistBounds(e[..|e| - 1], x);
      IntDistribute(|e| - 1, 1, x);
    }
  }

  lemma {:induction false} PairSumBounds(e: seq<int>)
    requires Exposures(e)
    ensures 0 <= PairSum(e, e) <= 2 * ((|e| - 1) * Acc(e))
    ensures PairSum(e, e) == 0 <==> AllEqual(e)
  {
    var b, x := e[..|e| - 1], e[|e| - 1];
    assert e == b + [x];
    assert Acc(e) == Acc(b) + x;
    if b != [] {
      PairSumBounds(b);
      assert AllEqual(e) <==> AllEqual(b) && b[0] == x;
    }
    assert b == [] ==> PairSum(b, b) == 0;
    assert AllEqual(e) <==> AllEqual(b) && forall i :: 0 <= i < |b| ==> b[i] == x;
    hide PairSum, AbsDist, Acc, AllEqual;
    PairSumSnoc(b, x);
    AbsDistBounds(b, x);
    PairSumArithmetic(|b|, Acc(b), x);
  }

  lemma PairSumArithmetic(n: int, t: int, x: int)
    ensures 2 * ((n - 1) * t) + 2 * (t + n * x) == 2 * (n * (t + x))
  {
  }

  /** Mean absolute difference over twice the mean; 0 for a single exposure. */
  function Gini(e: seq<int>): real
    requires Exposures(e) && Acc(e) > 0
  {
    var n := |e|;
    var mean := Acc(e) as real / n as real;
    if n > 1 && 2.0 * (n * n) as real * mean != 0.0 then PairSum(e, e) as real / (2.0 * (n * n) as real * mean) else 0.0
  }

  lemma GiniDenominator(n: int, t: int)
    requires n > 0 && t > 0
    ensures 2.0 * (n * n) as real * (t as real / n as real) == 2.0 * (n * t) as real
    ensures (n * t) as real > 0.0
  {
    var m, r := n as real, t as real;
    assert (n * n) as real == m * m && (n * t) as real == m * r;
    assert r / m * m == r;
    assert m * m * (r / m) == m * (r / m * m);
    PositiveProduct(n, t);
  }

  /** The coefficient lies in [0, 1 - 1/n], and is 0 exactly when all exposures are equal. */
  lemma GiniBounds(e: seq<int>)
    requires Exposures(e)
    ensures Acc(e) > 0
    ensures 0.0 <= Gini(e) <= 1.0 - 1.0 / |e| as real
    ensures Gini(e) == 0.0 <==> AllEqual(e)
  {
    hide Acc, PairSum, Gini, AllEqual;
    SquaresBelowSquare(e);
    PairSumBounds(e);
    GiniDenominator(|e|, Acc(e));
    GiniIs(e);
    if |e| > 1 {
      GiniFraction(|e|, Acc(e), PairSum(e, e));
    } else {
      OneIsEqual(e);
    }
  }

  lemma GiniIs(e: seq<int>)
    requires Exposures(e) && Acc(e) > 0
    ensures (|e| * Acc(e)) as real > 0.0
    ensures Gini(e) == if |e| > 1 then PairSum(e, e) as real / (2.0 * (|e| * Acc(e)) as real) else 0.0
  {
    hide Acc, PairSum;
    GiniDenominator(|e|, Acc(e));
  }

  lemma OneIsEqual(e: seq<int>)
    requires |e| == 1
    ensures AllEqual(e)
  {
  }

  lemma GiniFraction(n: int, t: int, p: int)
    requires n > 0 && t > 0 && 0 <= p <= 2 * ((n - 1) * t) && (n * t) as real > 0.0
    ensures 0.0 <= p as real / (2.0 * (n * t) as real) <= 1.0 - 1.0 / n as real
    ensures p as real / (2.0 * (n * t) as real) == 0.0 <==> p == 0
  {
    var m, d := n as real, 2.0 * (n * t) as real;
    var g := p as real / d;
    assert g * d == p as real;
    CompareProducts(g, d, p as real);
    assert 1.0 / m * m == 1.0;
    var room := 1.0 - 1.0 / m - g;
    assert (n * t) as real == m * t as real && ((n - 1) * t) as real == (m - 1.0) * t as real;
    assert 1.0 / m * d == 2.0 * t as real by {
      assert 1.0 / m * (m * t as real) == (1.0 / m * m) * t as real;
    }
    assert room * d == d - 1.0 / m * d - g * d;
    assert room * d == 2.0 * ((m - 1.0) * t as real) - p as real;
    CompareProducts(room, d, 2.0 * ((m - 1.0) * t as real) - p as real);
  }

  /** With two exposures, written out. */
  lemma MetricsOfTwo(x: int, y: int)
    requires x > 0 && y > 0
    ensures Acc([x, y]) == x + y
    ensures Hhi([x, y]) == Share(x, x + y) * Share(x, x + y) + Share(y, x + y) * Share(y, x + y)
    ensures Gini([x, y]) == Abs(x - y) as real / (2.0 * (x + y) as real)
  {
    var one, e := [x], [x, y];
    assert e[..1] == one && one[..0] == [];
    assert Acc(one) == Acc(one[..0]) + x && Acc(e) == Acc(e[..1]) + y;
    assert SumSquaredShares(one, x + y) == SumSquaredShares(one[..0], x + y) + Share(x, x + y) * Share(x, x + y);
    assert SumSquaredShares(e, x + y) == SumSquaredShares(e[..1], x + y) + Share(y, x + y) * Share(y, x + y);
    DistancesOfTwo(x, y);
    hide PairSum, AbsDist, Acc, Hhi, SumSquaredShares, Share;
    HhiIs(e);
    GiniIs(e);
    HalfBoth(Abs(x - y), x + y);
  }

  lemma DistancesOfTwo(x: int, y: int)
    ensures PairSum([x, y], [x, y]) == 2 * Abs(x - y)
  {
    var one, e := [x], [x, y];
    assert e[..1] == one && one[..0] == [];
    forall z
      ensures AbsDist(e, z) == Abs(z - x) + Abs(z - y)
    {
      assert AbsDist(one, z) == AbsDist(one[..0], z) + Abs(z - x) && AbsDist(e, z) == AbsDist(e[..1], z) + Abs(z - y);
    }
    assert PairSum(one, e) == PairSum(one[..0], e) + AbsDist(e, x)
           && PairSum(e, e) == PairSum(e[..1], e) + AbsDist(e, y);
  }

  lemma HalfBoth(p: int, t: int)
    requires t > 0
    ensures (2 * t) as real > 0.0 && (2 * p) as real / (2.0 * (2 * t) as real) == p as real / (2.0 * t as real)
  {
  }

  // ---- top N ------------------------------------------------------------

  predicate Descending(s: seq<int>) {
    forall i, j :: 0 <= i < j < |s| ==> s[i] >= s[j]
  }

  /** The sort of the library, as far as its result is concerned. */
  function SortDescending(s: seq<int>): (r: seq<int>)
    ensures Descending(r) && multiset(r) == multiset(s) && |r| == |s|
  {
    if s == [] then []
    else
      assert s == [s[0]] + s[1..];
      Insert(s[0], SortDescending(s[1..]))
  }

  function Insert(x: int, s: seq<int>): (r: seq<int>)
    requires Descending(s)
    ensures Descending(r) && multiset(r) == multiset(s) + multiset{x} && |r| == |s| + 1
    ensures r[0] == x || (s != [] && r[0] == s[0])
  {
    if s == [] || x >= s[0] then
      DescendingCons(x, s);
      [x] + s
    else
      FirstOut(s);
      var r := Insert(x, s[1..]);
      DescendingCons(s[0], r);
      [s[0]] + r
  }

  lemma DescendingCons(x: int, s: seq<int>)
    requires Descending(s) && (s != [] ==> x >= s[0])
    ensures Descending([x] + s)
    ensures multiset([x] + s) == multiset(s) + multiset{x}
  {
  }

  /** What the first n of a sequence add up to; all of it when it is shorter. */
  function Top(s: seq<int>, n: nat): int { Sum(if n <= |s| then s[..n] else s) }

  function RatioAt(e: seq<int>, n: nat): real
    requires Acc(e) > 0
  {
    Top(SortDescending(e), n) as real / Acc(e) as real * 100.0
  }

  /** One element taken out. */
  function Without(t: seq<int>, k: nat): (r: seq<int>)
    requires k < |t|
    ensures |r| == |t| - 1
  {
    t[..k] + t[k + 1..]
  }

  lemma SplitAround(t: seq<int>, k: nat)
    requires k < |t|
    ensures t == t[..k] + ([t[k]] + t[k + 1..])
  {
  }

  lemma WithoutSum(t: seq<int>, k: nat)
    requires k < |t|
    ensures Sum(t) == t[k] + Sum(Without(t, k))
  {
    hide Sum;
    SplitAround(t, k);
    MiddleOut(t[..k], t[k], t[k + 1..]);
  }

  lemma MiddleOut(a: seq<int>, x: int, b: seq<int>)
    ensures Sum(a + ([x] + b)) == x + Sum(a + b)
  {
    assert Sum([x]) == x by { SumSnoc([], x); assert [] + [x] == [x]; }
    hide Sum;
    SumConcat(a, [x] + b);
    SumConcat([x], b);
    SumConcat(a, b);
  }

  lemma WithoutContents(t: seq<int>, k: nat)
    requires k < |t|
    ensures multiset(t) == multiset(Without(t, k)) + multiset{t[k]}
  {
    assert t == t[..k] + [t[k]] + t[k + 1..];
  }

  lemma {:induction false} SumPermutes(s: seq<int>, t: seq<int>)
    requires multiset(s) == multiset(t)
    ensures Sum(s) == Sum(t)
  {
    if s == [] {
      assert |multiset(t)| == 0;
    } else {
      hide Without;
      assert s[0] in multiset(s) && s[0] in multiset(t);
      var k :| 0 <= k < |t| && t[k] == s[0];
      WithoutContents(s, 0);
      WithoutContents(t, k);
      assert multiset(Without(s, 0)) == multiset(s) - multiset{s[0]};
      assert multiset(Without(t, k)) == multiset(t) - multiset{t[k]};
      SumPermutes(Without(s, 0), Without(t, k));
      WithoutSum(s, 0);
      WithoutSum(t, k);
    }
  }

  lemma {:induction false} AccIsSum(e: seq<int>)
    ensures Acc(e) == Sum(e)
  {
    if e != [] {
      AccIsSum(e[..|e| - 1]);
      assert e == e[..|e| - 1] + [e[|e| - 1]];
      SumSnoc(e[..|e| - 1], e[|e| - 1]);
    }
  }

  lemma TopStep(d: seq<int>, n: nat)
    ensures Top(d, n + 1) == Top(d, n) + if n < |d| then d[n] else 0
  {
    if n < |d| {
      assert d[..n + 1] == d[..n] + [d[n]];
      SumSnoc(d[..n], d[n]);
    } else if n == |d| {
      assert d[..n] == d;
    }
  }

  /** No selection of at most n of the exposures adds up to more than the first n in descending order. */
  lemma {:induction false} TopDominates(d: seq<int>, sel: seq<int>, n: nat)
    requires Descending(d) && (forall i :: 0 <= i < |d| ==> d[i] > 0)
    requires |sel| <= n && multiset(sel) <= multiset(d)
    ensures Sum(sel) <= Top(d, n)
    decreases |d|, |sel|
  {
    if sel == [] {
      TopNonNegative(d, n);
    } else {
      NotEmpty(sel, d);
      TopCons(d, n);
      hide Top, Sum;
      if d[0] in sel {
        var rest := TakeOut(sel, d);
        TopDominates(d[1..], rest, n - 1);
      } else {
        LeavesOut(sel, d);
        TopDominates(d[1..], sel[1..], n - 1);
        SumCons(sel);
      }
    }
  }

  lemma SumCons(sel: seq<int>)
    requires sel != []
    ensures Sum(sel) == sel[0] + Sum(sel[1..])
  {
  }

  lemma NotEmpty(sel: seq<int>, d: seq<int>)
    requires sel != [] && multiset(sel) <= multiset(d)
    ensures d != [] && sel[0] in d
    ensures Descending(d) ==> sel[0] <= d[0]
  {
    assert sel[0] in multiset(sel) && sel[0] in multiset(d);
  }

  /** A selection that contains the largest, without it. */
  lemma TakeOut(sel: seq<int>, d: seq<int>) returns (rest: seq<int>)
    requires d != [] && d[0] in sel && multiset(sel) <= multiset(d)
    ensures |rest| == |sel| - 1 && multiset(rest) <= multiset(d[1..]) && Sum(sel) == d[0] + Sum(rest)
  {
    hide Sum;
    var k :| 0 <= k < |sel| && sel[k] == d[0];
    rest := Without(sel, k);
    hide Without;
    WithoutContents(sel, k);
    WithoutSum(sel, k);
    FirstOut(d);
    LessOne(multiset(rest), multiset(d[1..]), d[0]);
  }

  lemma FirstOut(d: seq<int>)
    requires d != []
    ensures multiset(d) == multiset(d[1..]) + multiset{d[0]}
  {
    assert d == [d[0]] + d[1..];
  }

  lemma LessOne(a: multiset<int>, b: multiset<int>, x: int)
    requires a + multiset{x} <= b + multiset{x}
    ensures a <= b
  {
    forall y
      ensures a[y] <= b[y]
    {
      assert (a + multiset{x})[y] <= (b + multiset{x})[y];
    }
  }

  lemma LeavesOut(sel: seq<int>, d: seq<int>)
    requires sel != [] && d != [] && multiset(sel) <= multiset(d) && d[0] !in sel
    ensures multiset(sel[1..]) <= multiset(d[1..])
  {
    assert sel == [sel[0]] + sel[1..] && d == [d[0]] + d[1..];
    forall x
      ensures multiset(sel[1..])[x] <= multiset(d[1..])[x]
    {
      assert multiset(sel)[x] <= multiset(d)[x];
      assert x == d[0] ==> multiset(sel)[x] == 0;
    }
  }

  lemma TopCons(d: seq<int>, n: nat)
    requires d != [] && n > 0
    ensures Top(d, n) == d[0] + Top(d[1..], n - 1)
  {
    if n <= |d| {
      assert d[..n] == [d[0]] + d[1..][..n - 1];
    }
  }

  lemma {:induction false} TopNonNegative(d: seq<int>, n: nat)
    requires forall i :: 0 <= i < |d| ==> d[i] > 0
    ensures Top(d, n) >= 0
    decreases n
  {
    if n > 0 {
      TopNonNegative(d, n - 1);
      TopStep(d, n - 1);
    }
  }

  lemma SortedFacts(e: seq<int>)
    requires Exposures(e)
    ensures var d := SortDescending(e); Exposures(d) && Sum(d) == Acc(e) && |d| == |e|
  {
    var d := SortDescending(e);
    SumPermutes(d, e);
    AccIsSum(e);
    forall i | 0 <= i < |d|
      ensures d[i] > 0
    {
      assert d[i] in multiset(d) && d[i] in multiset(e);
    }
  }

  /** The ratio is the largest share that any N of the exposures have, and one selection has it. */
  lemma RatioIsLargestShare(e: seq<int>, n: nat, sel: seq<int>)
    requires Exposures(e)
    requires |sel| <= n && multiset(sel) <= multiset(e)
    ensures Acc(e) > 0
    ensures Sum(sel) as real / Acc(e) as real * 100.0 <= RatioAt(e, n)
    ensures var best := if n <= |e| then SortDescending(e)[..n] else SortDescending(e);
            |best| <= n && multiset(best) <= multiset(e) && RatioAt(e, n) == Sum(best) as real / Acc(e) as real * 100.0
  {
    hide Acc, Sum, SumSquares, Square, Descending, SortDescending;
    SquaresBelowSquare(e);
    var d := SortDescending(e);
    SortedFacts(e);
    TopDominates(d, sel, n);
    QuotientMonotone(Sum(sel), Top(d, n), Acc(e));
    PrefixContents(d, n);
    hide Exposures;
  }

  lemma PrefixContents(d: seq<int>, n: nat)
    ensures n <= |d| ==> multiset(d[..n]) <= multiset(d)
  {
    if n <= |d| {
      assert d == d[..n] + d[n..];
      assert multiset(d) == multiset(d[..n]) + multiset(d[n..]);
    }
  }

  lemma QuotientMonotone(x: int, y: int, t: int)
    requires t > 0
    ensures x <= y ==> x as real / t as real * 100.0 <= y as real / t as real * 100.0
    ensures x < y ==> x as real / t as real * 100.0 < y as real / t as real * 100.0
    ensures t as real / t as real * 100.0 == 100.0
  {
  }

  /** The ratio rises with N until every exposure is in, and is 100 exactly from then on. */
  lemma RatioRises(e: seq<int>, n: nat)
    requires Exposures(e)
    ensures Acc(e) > 0
    ensures if n < |e| then RatioAt(e, n) < RatioAt(e, n + 1) else RatioAt(e, n) == RatioAt(e, n + 1)
    ensures RatioAt(e, n) == 100.0 <==> n >= |e|
  {
    hide Acc, Sum, SumSquares, Square, Descending, SortDescending;
    SquaresBelowSquare(e);
    var d := SortDescending(e);
    SortedFacts(e);
    TopStep(d, n);
    QuotientMonotone(Top(d, n), Top(d, n + 1), Acc(e));
    if n < |e| {
      TopBelowSum(d, n);
    }
    QuotientMonotone(Top(d, n), Acc(e), Acc(e));
  }

  lemma {:induction false} TopBelowSum(d: seq<int>, n: nat)
    requires n < |d| && forall i :: 0 <= i < |d| ==> d[i] > 0
    ensures Top(d, n) < Sum(d)
    decreases |d| - n
  {
    TopStep(d, n);
    if n + 1 < |d| {
      TopBelowSum(d, n + 1);
    } else {
      assert d[..n + 1] == d;
    }
  }

  // ---- the handler's loops --------------------------------------------------

  /** The double loop over the sorted exposures. */
  method SumAbsoluteDifferences(sorted: seq<int>) returns (sumAbsDiff: int)
    ensures sumAbsDiff == PairSum(sorted, sorted)
  {
    sumAbsDiff := 0;
    var n := |sorted|;
    for i := 0 to n
      invariant sumAbsDiff == PairSum(sorted[..i], sorted)
    {
      assert sorted[..i + 1][..i] == sorted[..i];
      for j := 0 to n
        invariant sumAbsDiff == PairSum(sorted[..i], sorted) + AbsDist(sorted[..j], sorted[i])
      {
        assert sorted[..j + 1][..j] == sorted[..j];
        sumAbsDiff := sumAbsDiff + Abs(sorted[i] - sorted[j]);
      }
      assert sorted[..n] == sorted;
    }
    assert sorted[..n] == sorted;
  }

  // ---- order does not matter ------------------------------------------------

  function SumBy(f: int -> int, s: seq<int>): int {
    if s == [] then 0 else SumBy(f, s[..|s| - 1]) + f(s[|s| - 1])
  }

  lemma {:induction false} SumByConcat(f: int -> int, a: seq<int>, b: seq<int>)
    ensures SumBy(f, a + b) == SumBy(f, a) + SumBy(f, b)
  {
    if b == [] {
      assert a + b == a;
    } else {
      SumByConcat(f, a, b[..|b| - 1]);
      assert (a + b)[..|a + b| - 1] == a + b[..|b| - 1];
    }
  }

  lemma SumByMiddle(f: int -> int, a: seq<int>, x: int, b: seq<int>)
    ensures SumBy(f, a + ([x] + b)) == f(x) + SumBy(f, a + b)
  {
    assert SumBy(f, [x]) == f(x) by { assert [x][..0] == []; }
    hide SumBy;
    SumByConcat(f, a, [x] + b);
    SumByConcat(f, [x], b);
    SumByConcat(f, a, b);
  }

  lemma SumByWithout(f: int -> int, t: seq<int>, k: nat)
    requires k < |t|
    ensures SumBy(f, t) == f(t[k]) + SumBy(f, Without(t, k))
  {
    hide SumBy;
    SplitAround(t, k);
    SumByMiddle(f, t[..k], t[k], t[k + 1..]);
  }

  lemma {:induction false} SumByPermutes(f: int -> int, s: seq<int>, t: seq<int>)
    requires multiset(s) == multiset(t)
    ensures SumBy(f, s) == SumBy(f, t)
    decreases |s|
  {
    if s == [] {
      assert |multiset(t)| == 0;
    } else {
      hide Without;
      assert s[0] in multiset(s) && s[0] in multiset(t);
      var k :| 0 <= k < |t| && t[k] == s[0];
      WithoutContents(s, 0);
      WithoutContents(t, k);
      assert multiset(Without(s, 0)) == multiset(s) - multiset{s[0]};
      assert multiset(Without(t, k)) == multiset(t) - multiset{t[k]};
      SumByPermutes(f, Without(s, 0), Without(t, k));
      SumByWithout(f, s, 0);
      SumByWithout(f, t, k);
    }
  }

  function DistanceTo(x: int): int -> int { (y: int) => Abs(x - y) }

  function DistanceToAll(b: seq<int>): int -> int { (x: int) => AbsDist(b, x) }

  lemma {:induction false} AbsDistIsSumBy(e: seq<int>, x: int)
    ensures AbsDist(e, x) == SumBy(DistanceTo(x), e)
  {
    if e != [] {
      AbsDistIsSumBy(e[..|e| - 1], x);
    }
  }

  lemma {:induction false} PairSumIsSumBy(a: seq<int>, b: seq<int>)
    ensures PairSum(a, b) == SumBy(DistanceToAll(b), a)
  {
    if a != [] {
      PairSumIsSumBy(a[..|a| - 1], b);
    }
  }

  lemma {:induction false} PairSumSameRight(a: seq<int>, s: seq<int>, t: seq<int>)
    requires multiset(s) == multiset(t)
    ensures PairSum(a, s) == PairSum(a, t)
  {
    if a != [] {
      var x := a[|a| - 1];
      PairSumSameRight(a[..|a| - 1], s, t);
      AbsDistIsSumBy(s, x);
      AbsDistIsSumBy(t, x);
      SumByPermutes(DistanceTo(x), s, t);
    }
  }

  /** The double loop gives the same sum for the exposures in any order. */
  lemma PairSumPermutes(s: seq<int>, t: seq<int>)
    requires multiset(s) == multiset(t)
    ensures PairSum(s, s) == PairSum(t, t)
  {
    hide PairSum, SumBy;
    PairSumSameRight(s, s, t);
    PairSumIsSumBy(s, t);
    PairSumIsSumBy(t, t);
    SumByPermutes(DistanceToAll(t), s, t);
  }

  function Reverse(s: seq<int>): (r: seq<int>)
    ensures |r| == |s| && multiset(r) == multiset(s)
    ensures forall i :: 0 <= i < |s| ==> r[i] == s[|s| - 1 - i]
  {
    if s == [] then []
    else
      assert s == [s[0]] + s[1..];
      Reverse(s[1..]) + [s[0]]
  }

  // ---- the handler ----------------------------------------------------------

  datatype Report = Report(hhi: real, gini: real, ratios: seq<real>, exposureCount: nat, totalOutstanding: int)

  const TOP_N: seq<nat> := [5, 10, 20, 25, 50, 75]

  /** What is reported of a metric: six decimals of a share, two of a percentage. */
  function SixPlaces(x: real): real { RoundCents(x * 1000000.0) as real / 1000000.0 }

  function TwoPlaces(x: real): real { RoundCents(x * 100.0) as real / 100.0 }

  lemma PlacesAreMonotone(x: real, y: real)
    requires x <= y
    ensures SixPlaces(x) <= SixPlaces(y) && TwoPlaces(x) <= TwoPlaces(y)
    ensures -0.0000005 < SixPlaces(x) - x <= 0.0000005 && -0.005 < TwoPlaces(x) - x <= 0.005
  {
    RoundMonotone(x * 1000000.0, y * 1000000.0);
    RoundMonotone(x * 100.0, y * 100.0);
    RoundError(x * 1000000.0);
    RoundError(x * 100.0);
  }

  lemma PlacesAreExact(n: int)
    ensures SixPlaces(n as real) == n as real && TwoPlaces(n as real) == n as real
  {
    RoundExact(n * 1000000);
    RoundExact(n * 100);
  }

  /**
    Rounding keeps what is reported in range and in order: an index of at most
    1, a Gini between 0 and 1 that is 0 for equal exposures, ratios that never
    fall with N and are 100 as soon as every exposure is in.
   */
  lemma ReportedMetrics(e: seq<int>, n: nat)
    requires Exposures(e)
    ensures Acc(e) > 0
    ensures 1.0 / |e| as real - 0.0000005 < SixPlaces(Hhi(e)) <= 1.0 && (|e| == 1 ==> SixPlaces(Hhi(e)) == 1.0)
    ensures 0.0 <= SixPlaces(Gini(e)) <= 1.0 && (AllEqual(e) ==> SixPlaces(Gini(e)) == 0.0)
    ensures TwoPlaces(RatioAt(e, n)) <= TwoPlaces(RatioAt(e, n + 1)) <= 100.0
    ensures n >= |e| ==> TwoPlaces(RatioAt(e, n)) == 100.0
  {
    hide Acc, Hhi, Gini, RatioAt, AllEqual, SixPlaces, TwoPlaces;
    HhiBounds(e);
    GiniBounds(e);
    RatioRises(e, n);
    RatioRises(e, n + 1);
    RatioAtMost(e, n + 1);
    FractionPositive(|e|);
    PlacesAreExact(0);
    PlacesAreExact(1);
    PlacesAreExact(100);
    PlacesAreMonotone(Hhi(e), 1.0);
    PlacesAreMonotone(0.0, Gini(e));
    PlacesAreMonotone(Gini(e), 1.0);
    PlacesAreMonotone(RatioAt(e, n), RatioAt(e, n + 1));
    PlacesAreMonotone(RatioAt(e, n + 1), 100.0);
  }

  lemma FractionPositive(n: int)
    requires n > 0
    ensures 1.0 / n as real > 0.0
  {
  }

  lemma {:induction false} RatioAtMost(e: seq<int>, n: nat)
    requires Exposures(e)
    ensures Acc(e) > 0 && RatioAt(e, n) <= 100.0
    decreases |e| - n
  {
    hide Acc, RatioAt;
    RatioRises(e, n);
    if n < |e| {
      RatioAtMost(e, n + 1);
    }
  }

  /** The metrics as reported; zeros when nothing is outstanding. */
  method ComputeConcentration(exposures: seq<int>) returns (r: Report)
    requires forall i :: 0 <= i < |exposures| ==> exposures[i] > 0
    ensures exposures == [] ==> r == Report(0.0, 0.0, [], 0, 0)
    ensures exposures != [] ==>
              && Acc(exposures) > 0
              && r.hhi == SixPlaces(Hhi(exposures)) && r.gini == SixPlaces(Gini(exposures))
              && TOP_N == [5, 10, 20, 25, 50, 75] && |r.ratios| == |TOP_N|
              && (forall i :: 0 <= i < |TOP_N| ==> r.ratios[i] == TwoPlaces(RatioAt(exposures, TOP_N[i])))
              && r.exposureCount == |exposures| && r.totalOutstanding == Acc(exposures)
  {
    hide Hhi, Gini, RatioAt, PairSum, SortDescending, Square, SumSquares, Reverse, SixPlaces, TwoPlaces;
    var total := TotalOf(exposures);
    SquaresBelowSquare(exposures);
    if total == 0 || |exposures| == 0 {
      return Report(0.0, 0.0, [], 0, 0);
    }
    var sumOfSquares := SumOfSquaredShares(exposures, total);
    HhiIs(exposures);
    var sorted := Reverse(SortDescending(exposures));
    var gini := GiniOf(sorted, total);
    PairSumPermutes(sorted, exposures);
    GiniIs(exposures);
    var ratios := RatiosOf(exposures, total);
    return Report(SixPlaces(sumOfSquares), SixPlaces(gini), ratios, |exposures|, total);
  }

  lemma HhiIs(e: seq<int>)
    requires Acc(e) > 0
    ensures Hhi(e) == SumSquaredShares(e, Acc(e))
  {
  }

  method TotalOf(exposures: seq<int>) returns (total: int)
    ensures total == Acc(exposures)
  {
    total := 0;
    for i := 0 to |exposures|
      invariant total == Acc(exposures[..i])
    {
      assert exposures[..i + 1][..i] == exposures[..i];
      total := total + exposures[i];
    }
    assert exposures[..|exposures|] == exposures;
  }

  method GiniOf(sorted: seq<int>, total: int) returns (gini: real)
    requires sorted != [] && total > 0 && (|sorted| * total) as real > 0.0
    ensures gini == if |sorted| > 1 then PairSum(sorted, sorted) as real / (2.0 * (|sorted| * total) as real) else 0.0
  {
    var n := |sorted|;
    var mean := total as real / n as real;
    var sumAbsDiff := SumAbsoluteDifferences(sorted);
    hide PairSum;
    GiniDenominator(n, total);
    gini := if n > 1 then sumAbsDiff as real / (2.0 * (n * n) as real * mean) else 0.0;
  }

  method RatiosOf(exposures: seq<int>, total: int) returns (ratios: seq<real>)
    requires total == Acc(exposures) > 0
    ensures |ratios| == |TOP_N| && forall i :: 0 <= i < |TOP_N| ==> ratios[i] == TwoPlaces(RatioAt(exposures, TOP_N[i]))
  {
    hide RatioAt, Acc, SortDescending, TwoPlaces;
    var descSorted := SortDescending(exposures);
    ratios := [];
    for i := 0 to |TOP_N|
      invariant |ratios| == i && forall k :: 0 <= k < i ==> ratios[k] == TwoPlaces(RatioAt(exposures, TOP_N[k]))
    {
      var ratio := RatioOf(descSorted, TOP_N[i], total);
      RatioAtIs(exposures, TOP_N[i]);
      ratios := ratios + [TwoPlaces(ratio)];
    }
  }

  method SumOfSquaredShares(exposures: seq<int>, total: int) returns (hhi: real)
    requires total > 0
    ensures hhi == SumSquaredShares(exposures, total)
  {
    hhi := 0.0;
    for i := 0 to |exposures|
      invariant hhi == SumSquaredShares(exposures[..i], total)
    {
      assert exposures[..i + 1][..i] == exposures[..i];
      hhi := hhi + Share(exposures[i], total) * Share(exposures[i], total);
    }
    assert exposures[..|exposures|] == exposures;
  }

  /** slice(0, topN).reduce */
  method RatioOf(descSorted: seq<int>, topN: nat, total: int) returns (ratio: real)
    requires total > 0
    ensures ratio == Top(descSorted, topN) as real / total as real * 100.0
  {
    var slice := if topN <= |descSorted| then descSorted[..topN] else descSorted;
    var sum := 0;
    for i := 0 to |slice|
      invariant sum == Sum(slice[..i])
    {
      assert slice[..i + 1] == slice[..i] + [slice[i]];
      SumSnoc(slice[..i], slice[i]);
      sum := sum + slice[i];
    }
    assert slice[..|slice|] == slice;
    return sum as real / total as real * 100.0;
  }

  lemma RatioAtIs(e: seq<int>, n: nat)
    requires Acc(e) > 0
    ensures RatioAt(e, n) == Top(SortDescending(e), n) as real / Acc(e) as real * 100.0
  {
  }
}
