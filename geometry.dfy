/** Scaled distances. `calculate_distance` is `int(math.hypot(dx, dy) * 10)`: ten times
    the Euclidean distance, truncated. For integer coordinates that is the integer
    square root of 100 * (dx*dx + dy*dy), which is how it is written here. */
module Geometry {

  function Sq(n: int): (r: nat)
  {
    SquareNonNegative(n);
    n * n
  }

  lemma SquareNonNegative(n: int)
    ensures n * n >= 0
  {
    if n < 0 {
      assert n * n == (-n) * (-n);
    }
  }

  /** The two squares that bracket n when s brackets n / 4. */
  lemma HalvingStep(n: nat, s: nat)
    requires s * s <= n / 4 < (s + 1) * (s + 1)
    ensures (2 * s) * (2 * s) <= n < (2 * s + 2) * (2 * s + 2)
  {
    assert (2 * s) * (2 * s) == 4 * (s * s);
    assert (2 * s + 2) * (2 * s + 2) == 4 * ((s + 1) * (s + 1));
  }

  /** The largest r with r * r <= n. */
  function ISqrt(n: nat): (r: nat)
    ensures r * r <= n < (r + 1) * (r + 1)
    decreases n
  {
    if n < 2 then n
    else
      var s := ISqrt(n / 4);
      HalvingStep(n, s);
      if (2 * s + 1) * (2 * s + 1) <= n then 2 * s + 1 else 2 * s
  }

  /** The bracketing property determines the root. */
  lemma ISqrtUnique(n: nat, r: nat)
    requires r * r <= n < (r + 1) * (r + 1)
    ensures ISqrt(n) == r
  {
    var q := ISqrt(n);
    if q < r {
      MonotoneSquare(q + 1, r);
    } else if r < q {
      MonotoneSquare(r + 1, q);
    }
  }

  lemma MonotoneSquare(a: nat, b: nat)
    requires a <= b
    ensures a * a <= b * b
  {
    assert a * a <= a * b <= b * b;
  }

  /** `calculate_distance` on two positions. */
  function Distance(x1: int, y1: int, x2: int, y2: int): (d: nat)
  {
    ISqrt(100 * (Sq(x1 - x2) + Sq(y1 - y2)))
  }

  /** The scaled distance does not depend on the order of the two positions. */
  lemma DistanceSymmetric(x1: int, y1: int, x2: int, y2: int)
    ensures Distance(x1, y1, x2, y2) == Distance(x2, y2, x1, y1)
  {
    assert Sq(x1 - x2) == Sq(x2 - x1) by {
      assert (x1 - x2) * (x1 - x2) == (x2 - x1) * (x2 - x1);
    }
    assert Sq(y1 - y2) == Sq(y2 - y1) by {
      assert (y1 - y2) * (y1 - y2) == (y2 - y1) * (y2 - y1);
    }
  }

  lemma SquareZero(n: int)
    requires Sq(n) == 0
    ensures n == 0
  {
    if n != 0 {
      MonotoneSquare(1, if n > 0 then n else -n);
    }
  }

  /** The scaled distance is 0 exactly when the two positions coincide. */
  lemma DistanceZeroIff(x1: int, y1: int, x2: int, y2: int)
    ensures Distance(x1, y1, x2, y2) == 0 <==> x1 == x2 && y1 == y2
  {
    var n := 100 * (Sq(x1 - x2) + Sq(y1 - y2));
    if x1 == x2 && y1 == y2 {
      assert n == 0;
    }
    if Distance(x1, y1, x2, y2) == 0 {
      assert n < 1;
      SquareZero(x1 - x2);
      SquareZero(y1 - y2);
    }
  }

  /** Two distinct integer positions are at scaled distance at least 10. */
  lemma DistanceAtLeastTen(x1: int, y1: int, x2: int, y2: int)
    requires x1 != x2 || y1 != y2
    ensures Distance(x1, y1, x2, y2) >= 10
  {
    var n := 100 * (Sq(x1 - x2) + Sq(y1 - y2));
    if Sq(x1 - x2) == 0 {
      SquareZero(x1 - x2);
      if Sq(y1 - y2) == 0 {
        SquareZero(y1 - y2);
      }
    }
    assert n >= 100;
    var r := ISqrt(n);
    if r < 10 {
      MonotoneSquare(r + 1, 10);
    }
  }

  /** A unit of grid distance along one axis costs exactly ten units. */
  lemma DistanceAlongAxis(x: int, y: int, k: nat)
    ensures Distance(x, y, x + k, y) == 10 * k
  {
    assert Sq(x - (x + k)) == k * k by {
      assert (x - (x + k)) * (x - (x + k)) == k * k;
    }
    var n := 100 * (k * k);
    assert (10 * k) * (10 * k) == n;
    assert n < (10 * k + 1) * (10 * k + 1);
    ISqrtUnique(n, 10 * k);
  }
}
