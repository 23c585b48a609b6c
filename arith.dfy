/** Integer helpers shared by the allocator, the storage and the launcher. */
module Arith {

  function Min(a: int, b: int): (r: int)
    ensures r <= a && r <= b && (r == a || r == b)
  {
    if a <= b then a else b
  }

  function Max(a: int, b: int): (r: int)
    ensures r >= a && r >= b && (r == a || r == b)
  {
    if a >= b then a else b
  }

  /** Quotient and remainder are determined by the equation n == q * d + r with 0 <= r < d. */
  lemma DivModUnique(n: int, d: int, q: int, r: int)
    requires d > 0 && 0 <= r < d && n == q * d + r
    ensures n / d == q && n % d == r
  {
    var q', r' := n / d, n % d;
    assert n == q' * d + r' && 0 <= r' < d;
    if q' > q {
      assert (q' - q) * d == r - r';
      assert (q' - q) * d >= d by { MulGe(q' - q, d); }
      assert false;
    } else if q' < q {
      assert (q - q') * d == r' - r;
      assert (q - q') * d >= d by { MulGe(q - q', d); }
      assert false;
    }
  }

  lemma MulGe(a: int, d: int)
    requires a >= 1 && d >= 0
    ensures a * d >= d
  {
    assert a * d == (a - 1) * d + d;
    assert (a - 1) * d >= 0;
  }

  /** Ceiling division, the `div_ceil` the source uses for tile sizes and chunk counts. */
  function DivCeil(n: nat, d: nat): (r: nat)
    requires d > 0
    ensures r * d >= n
    ensures r > 0 ==> (r - 1) * d < n
  {
    var q := n / d;
    var m := n % d;
    assert n == q * d + m;
    if m == 0 then q
    else
      assert (q + 1) * d == q * d + d;
      q + 1
  }

  /** Sum of a sequence, accumulated from the back as the source's loops do. */
  function Sum(s: seq<int>): int
  {
    if |s| == 0 then 0 else Sum(s[..|s| - 1]) + s[|s| - 1]
  }

  lemma {:induction false} SumNonNeg(s: seq<int>)
    requires forall i :: 0 <= i < |s| ==> s[i] >= 0
    ensures Sum(s) >= 0
  {
    if |s| > 0 {
      SumNonNeg(s[..|s| - 1]);
    }
  }

  lemma {:induction false} SumUpdate(s: seq<int>, i: nat, v: int)
    requires i < |s|
    ensures Sum(s[i := v]) == Sum(s) + v - s[i]
  {
    var n := |s|;
    if i < n - 1 {
      assert s[i := v][..n - 1] == s[..n - 1][i := v];
      SumUpdate(s[..n - 1], i, v);
    } else {
      assert s[i := v][..n - 1] == s[..n - 1];
    }
  }

  /** Product of a sequence, accumulated from the back. */
  function Prod(s: seq<int>): int
  {
    if |s| == 0 then 1 else Prod(s[..|s| - 1]) * s[|s| - 1]
  }

  lemma {:induction false} ProdPositive(s: seq<int>)
    requires forall i :: 0 <= i < |s| ==> s[i] > 0
    ensures Prod(s) > 0
  {
    if |s| > 0 {
      ProdPositive(s[..|s| - 1]);
      MulPos(Prod(s[..|s| - 1]), s[|s| - 1]);
    }
  }

  lemma MulMono(x: int, y: int, k: int)
    requires x <= y && k >= 0
    ensures x * k <= y * k
  {
    assert y * k - x * k == (y - x) * k;
  }

  /** Division by a positive divisor is monotone. */
  lemma DivMono(x: int, y: int, d: int)
    requires x <= y && d > 0
    ensures x / d <= y / d
  {
    var qx, qy := x / d, y / d;
    if qx > qy {
      MulMono(qy + 1, qx, d);
      assert false;
    }
  }

  lemma MulPos(a: int, b: int)
    requires a > 0 && b > 0
    ensures a * b > 0
  {
  }

  lemma {:induction false} ProdAppend(s: seq<int>, t: seq<int>)
    ensures Prod(s + t) == Prod(s) * Prod(t)
  {
    if |t| == 0 {
      assert s + t == s;
    } else {
      var n := |t|;
      assert (s + t)[..|s + t| - 1] == s + t[..n - 1];
      ProdAppend(s, t[..n - 1]);
      calc {
        Prod(s + t);
        Prod(s + t[..n - 1]) * t[n - 1];
        Prod(s) * Prod(t[..n - 1]) * t[n - 1];
        Prod(s) * (Prod(t[..n - 1]) * t[n - 1]);
      }
    }
  }

  /** The product of a suffix peels off its first factor. */
  lemma ProdStep(s: seq<int>, k: nat)
    requires k < |s|
    ensures Prod(s[k..]) == s[k] * Prod(s[k + 1..])
  {
    ProdAppend([s[k]], s[k + 1..]);
    assert [s[k]] + s[k + 1..] == s[k..];
    assert [s[k]][..0] == [];
  }

  /** Number of `true` entries, the `std::count(..., true)` of the source. */
  function CountTrue(s: seq<bool>): (r: nat)
    ensures r <= |s|
  {
    if |s| == 0 then 0 else CountTrue(s[..|s| - 1]) + (if s[|s| - 1] then 1 else 0)
  }
}
