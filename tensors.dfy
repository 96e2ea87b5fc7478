/**
 * Tensors as the composite model sees them. The container only zero-fills a
 * tensor, subtracts a scaled buffer from it and relies on two tensors having
 * the same size, so a tensor is modelled as a flat sequence of reals; rank and
 * dimensions play no part, and numpy's floating point is replaced by exact
 * real arithmetic.
 */
module Tensors {

  type Tensor = seq<real>

  /** Every element of `t` is zero. */
  predicate IsZero(t: Tensor) {
    forall k :: 0 <= k < |t| ==> t[k] == 0.0
  }

  /** A tensor of `n` zeros: numpy's `zeros_like`, and what `fill(0)` leaves. */
  function Zeros(n: nat): (t: Tensor)
    ensures |t| == n && IsZero(t)
  {
    seq(n, _ => 0.0)
  }

  /** `t - rate * d`, element by element: one plain gradient-descent step. */
  function Descend(t: Tensor, rate: real, d: Tensor): (r: Tensor)
    requires |d| == |t|
    ensures |r| == |t|
  {
    seq(|t|, k requires 0 <= k < |t| => t[k] - rate * d[k])
  }

  /** Two steps against the same buffer add up to one step with the summed rate. */
  lemma DescendTwice(t: Tensor, a: real, b: real, d: Tensor)
    requires |d| == |t|
    ensures Descend(Descend(t, a, d), b, d) == Descend(t, a + b, d)
  {
    var once := Descend(t, a, d);
    forall k | 0 <= k < |t|
      ensures Descend(once, b, d)[k] == Descend(t, a + b, d)[k]
    {
      calc {
        Descend(once, b, d)[k];
        once[k] - b * d[k];
        (t[k] - a * d[k]) - b * d[k];
        { assert a * d[k] + b * d[k] == (a + b) * d[k]; }
        t[k] - (a + b) * d[k];
      }
    }
  }

  /** A step against an all-zero buffer changes nothing. */
  lemma DescendZero(t: Tensor, rate: real, d: Tensor)
    requires |d| == |t| && IsZero(d)
    ensures Descend(t, rate, d) == t
  {
  }
}
