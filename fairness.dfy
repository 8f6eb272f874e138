/** Jain's Fairness Index over a distribution of occupancy times.
    The source computes it in floating point; this model uses exact rationals. */
module Fairness {

  function Sum(xs: seq<int>): int
  {
    if xs == [] then 0 else xs[0] + Sum(xs[1..])
  }

  function SumOfSquares(xs: seq<int>): (r: int)
    ensures r >= 0
  {
    if xs == [] then 0 else SquareNonNegative(xs[0]); xs[0] * xs[0] + SumOfSquares(xs[1..])
  }

  lemma SquareNonNegative(x: int)
    ensures x * x >= 0
  {
    if x < 0 {
      assert x * x == (-x) * (-x);
    }
  }

  /** Sum of the squared distances of the values in `xs` from `y`. */
  function Spread(xs: seq<int>, y: int): (r: int)
    ensures r >= 0
  {
    if xs == [] then 0 else SquareNonNegative(xs[0] - y); (xs[0] - y) * (xs[0] - y) + Spread(xs[1..], y)
  }

  /** (Σx)² / (n·Σx²), or 0 when there are no values or every value is 0. */
  function JainsIndex(xs: seq<int>): (r: real)
    ensures 0.0 <= r <= 1.0
  {
    var n := |xs|;
    if n == 0 then 0.0
    else
      var sumOfSquares := SumOfSquares(xs);
      if sumOfSquares > 0 then
        var total := Sum(xs);
        CauchySchwarz(xs);
        RatioInUnit(total * total, n * sumOfSquares);
        (total * total) as real / (n * sumOfSquares) as real
      else 0.0
  }

  lemma RatioInUnit(a: int, b: int)
    requires 0 <= a <= b && 0 < b
    ensures 0.0 <= a as real / b as real <= 1.0
  {
  }

  lemma {:induction false} SpreadExpand(xs: seq<int>, y: int)
    ensures Spread(xs, y) == SumOfSquares(xs) - 2 * (y * Sum(xs)) + |xs| * (y * y)
  {
    if xs != [] {
      var x, rest := xs[0], xs[1..];
      var m, s, q := |rest|, Sum(rest), SumOfSquares(rest);
      SpreadExpand(rest, y);
      SquareOfDifference(x, y);
      Distribute(y, x, s);
      Distribute(y * y, m, 1);
      assert Spread(xs, y) == (x - y) * (x - y) + Spread(rest, y);
      assert Sum(xs) == x + s;
      assert SumOfSquares(xs) == x * x + q;
    }
  }

  lemma SquareOfDifference(x: int, y: int)
    ensures (x - y) * (x - y) == x * x - 2 * (y * x) + y * y
  {
  }

  lemma Distribute(a: int, b: int, c: int)
    ensures a * (b + c) == a * b + a * c
    ensures (b + c) * a == a * b + a * c
  {
  }

  /** Cauchy–Schwarz against the all-ones vector: (Σx)² <= n·Σx². */
  lemma {:induction false} CauchySchwarz(xs: seq<int>)
    ensures Sum(xs) * Sum(xs) <= |xs| * SumOfSquares(xs)
  {
    if xs != [] {
      var y, rest := xs[0], xs[1..];
      var m, s, q := |rest|, Sum(rest), SumOfSquares(rest);
      CauchySchwarz(rest);
      SpreadExpand(rest, y);
      // (m+1)(y² + q) - (y + s)² = (m·q - s²) + Spread(rest, y)
      SquareOfSum(y, s);
      Distribute(y * y + q, m, 1);
      Distribute(m, y * y, q);
      assert Sum(xs) == y + s;
      assert SumOfSquares(xs) == y * y + q;
    }
  }

  lemma SquareOfSum(x: int, y: int)
    ensures (x + y) * (x + y) == x * x + 2 * (x * y) + y * y
  {
  }

  lemma {:induction false} SumOfSquaresIsZero(xs: seq<int>)
    ensures SumOfSquares(xs) == 0 <==> forall i :: 0 <= i < |xs| ==> xs[i] == 0
  {
    if xs != [] {
      SumOfSquaresIsZero(xs[1..]);
      assert forall i :: 1 <= i < |xs| ==> xs[i] == xs[1..][i - 1];
      if xs[0] != 0 {
        assert xs[0] * xs[0] > 0;
      }
    }
  }

  lemma {:induction false} SumAtLeastEach(xs: seq<int>, k: int)
    requires forall i :: 0 <= i < |xs| ==> xs[i] >= 0
    requires 0 <= k < |xs|
    ensures Sum(xs) >= xs[k] && Sum(xs) >= 0
  {
    if k == 0 {
      if |xs| > 1 { SumAtLeastEach(xs[1..], 0); }
    } else {
      SumAtLeastEach(xs[1..], k - 1);
    }
  }

  /** For non-negative shares the square of the sum dominates the sum of squares. */
  lemma {:induction false} SquareOfSumDominates(xs: seq<int>)
    requires forall i :: 0 <= i < |xs| ==> xs[i] >= 0
    ensures SumOfSquares(xs) <= Sum(xs) * Sum(xs)
  {
    if xs != [] {
      var y, rest := xs[0], xs[1..];
      SquareOfSumDominates(rest);
      var s := Sum(rest);
      if rest != [] { SumAtLeastEach(rest, 0); }
      assert y * s >= 0;
      SquareOfSum(y, s);
    }
  }

  /** No users, or nobody has held a channel yet: the index is the floor value 0.
      With non-negative shares this is also the only way to get 0. */
  lemma JainsIndexIsZero(xs: seq<int>)
    requires forall i :: 0 <= i < |xs| ==> xs[i] >= 0
    ensures JainsIndex(xs) == 0.0 <==> (|xs| == 0 || forall i :: 0 <= i < |xs| ==> xs[i] == 0)
  {
    SumOfSquaresIsZero(xs);
    if |xs| > 0 && exists i :: 0 <= i < |xs| && xs[i] != 0 {
      var k :| 0 <= k < |xs| && xs[k] != 0;
      SumAtLeastEach(xs, k);
      var total := Sum(xs);
      assert total * total > 0;
      var d := |xs| * SumOfSquares(xs);
      assert d > 0;
      assert (total * total) as real / d as real > 0.0;
    }
  }

  lemma {:induction false} SumsOfEqualShares(xs: seq<int>, c: int)
    requires forall i :: 0 <= i < |xs| ==> xs[i] == c
    ensures Sum(xs) == |xs| * c && SumOfSquares(xs) == |xs| * (c * c)
  {
    if xs != [] {
      SumsOfEqualShares(xs[1..], c);
    }
  }

  /** Equal positive shares are perfectly fair. */
  lemma JainsIndexOfEqualShares(xs: seq<int>, c: int)
    requires |xs| > 0 && c > 0
    requires forall i :: 0 <= i < |xs| ==> xs[i] == c
    ensures JainsIndex(xs) == 1.0
  {
    var n := |xs|;
    SumsOfEqualShares(xs, c);
    var total, squares := Sum(xs), SumOfSquares(xs);
    assert squares > 0 by {
      assert c * c > 0;
    }
    assert total * total == n * squares by {
      assert (n * c) * (n * c) == n * (n * (c * c));
    }
    assert n * squares > 0;
    SelfRatio(total * total, n * squares);
  }

  lemma SelfRatio(a: int, b: int)
    requires a == b && b > 0
    ensures a as real / b as real == 1.0
  {
  }

  lemma {:induction false} SumsOfSingleShare(xs: seq<int>, k: int)
    requires 0 <= k < |xs|
    requires forall i :: 0 <= i < |xs| && i != k ==> xs[i] == 0
    ensures Sum(xs) == xs[k] && SumOfSquares(xs) == xs[k] * xs[k]
  {
    if k == 0 {
      if |xs| > 1 {
        assert forall i :: 0 <= i < |xs[1..]| ==> xs[1..][i] == 0;
        SumOfSquaresIsZero(xs[1..]);
        SumOfZeros(xs[1..]);
      }
    } else {
      SumsOfSingleShare(xs[1..], k - 1);
    }
  }

  lemma {:induction false} SumOfZeros(xs: seq<int>)
    requires forall i :: 0 <= i < |xs| ==> xs[i] == 0
    ensures Sum(xs) == 0
  {
    if xs != [] { SumOfZeros(xs[1..]); }
  }

  /** One user holding everything is maximally unfair: the index is 1/n. */
  lemma JainsIndexOfSingleShare(xs: seq<int>, k: int)
    requires 0 <= k < |xs| && xs[k] > 0
    requires forall i :: 0 <= i < |xs| && i != k ==> xs[i] == 0
    ensures JainsIndex(xs) == 1.0 / |xs| as real
  {
    SumsOfSingleShare(xs, k);
    var v := xs[k];
    assert v * v > 0;
    CancelShare(v * v, |xs|);
  }

  /** q / (n·q) = 1/n. */
  lemma CancelShare(q: int, n: int)
    requires q > 0 && n > 0
    ensures q as real / (n * q) as real == 1.0 / n as real
  {
    var d := (n * q) as real;
    assert d == n as real * q as real;
    assert d > 0.0;
  }

  /** For non-negative shares, not all zero, the index never drops below 1/n. */
  lemma JainsIndexAtLeastOneShare(xs: seq<int>)
    requires forall i :: 0 <= i < |xs| ==> xs[i] >= 0
    requires exists i :: 0 <= i < |xs| && xs[i] > 0
    ensures JainsIndex(xs) >= 1.0 / |xs| as real
  {
    SumOfSquaresIsZero(xs);
    SquareOfSumDominates(xs);
    var total := Sum(xs);
    RatioAtLeastShare(total * total, SumOfSquares(xs), |xs|);
  }

  lemma RatioAtLeastShare(a: int, q: int, n: int)
    requires a >= q > 0 && n > 0
    ensures a as real / (n * q) as real >= 1.0 / n as real
  {
    var d := (n * q) as real;
    assert d == n as real * q as real;
    assert d > 0.0;
    assert a as real / d >= q as real / d;
    CancelShare(q, n);
  }
}
