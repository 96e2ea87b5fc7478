/**
 * The gradient-accumulation buffers. `W_deltas` and `B_deltas` are lists
 * index-aligned with the layers: slot `i` holds a buffer exactly when layer
 * `i` owns a weight and a bias, and `None` otherwise. This module states the
 * allocation done by the constructor, the reset and the descent step as
 * functions on values; the class in module Composite is proved against them.
 */
module Deltas {
  import opened Wrappers
  import opened Tensors
  import opened Layers

  type Slots = seq<Option<Tensor>>

  /** One slot per layer, present exactly at the layers that own `W` and `B`. */
  predicate Aligned(ls: seq<Layer>, wd: Slots, bd: Slots) {
    && |wd| == |ls| && |bd| == |ls|
    && forall i :: 0 <= i < |ls| ==> (wd[i].Some? <==> HasW(ls[i])) && (bd[i].Some? <==> HasW(ls[i]))
  }

  /** Every present buffer has the size of the tensor it accumulates for. */
  predicate Fitted(ls: seq<Layer>, wd: Slots, bd: Slots)
    requires Aligned(ls, wd, bd)
  {
    forall i :: 0 <= i < |ls| && HasW(ls[i]) ==> |wd[i].value| == |ls[i].W| && |bd[i].value| == |ls[i].B|
  }

  /** Every present buffer is all zeros. */
  predicate Zeroed(ds: Slots) {
    forall i :: 0 <= i < |ds| && ds[i].Some? ==> IsZero(ds[i].value)
  }

  /**
   * The slots of one role (Weight or Bias) as the constructor allocates them:
   * `zeros_like` of the tensor when the layer owns it, `None` otherwise.
   */
  function FreshSlots(ls: seq<Layer>, r: Role): (ds: Slots)
    requires r == Weight || r == Bias
    ensures |ds| == |ls|
  {
    seq(|ls|, i requires 0 <= i < |ls| => if Carries(ls[i], r) then Some(Zeros(|Field(ls[i], r)|)) else None)
  }

  /** Freshly allocated slots satisfy the container's invariants, all zero. */
  lemma FreshSlotsValid(ls: seq<Layer>)
    ensures Aligned(ls, FreshSlots(ls, Weight), FreshSlots(ls, Bias))
    ensures Fitted(ls, FreshSlots(ls, Weight), FreshSlots(ls, Bias))
    ensures Zeroed(FreshSlots(ls, Weight)) && Zeroed(FreshSlots(ls, Bias))
  {
  }

  /** `fill(0)` on the buffer of every layer that owns `W`; other slots are kept. */
  function Cleared(ls: seq<Layer>, ds: Slots): (r: Slots)
    requires |ds| == |ls|
    requires forall i :: 0 <= i < |ls| && HasW(ls[i]) ==> ds[i].Some?
    ensures |r| == |ds|
  {
    seq(|ds|, i requires 0 <= i < |ds| => if HasW(ls[i]) then Some(Zeros(|ds[i].value|)) else ds[i])
  }

  /** Reset keeps the slots aligned and every buffer's size, and zeroes them. */
  lemma ClearedValid(ls: seq<Layer>, wd: Slots, bd: Slots)
    requires Aligned(ls, wd, bd)
    ensures Aligned(ls, Cleared(ls, wd), Cleared(ls, bd))
    ensures Zeroed(Cleared(ls, wd)) && Zeroed(Cleared(ls, bd))
    ensures forall i :: 0 <= i < |ls| && HasW(ls[i]) ==>
      |Cleared(ls, wd)[i].value| == |wd[i].value| && |Cleared(ls, bd)[i].value| == |bd[i].value|
    ensures Fitted(ls, wd, bd) ==> Fitted(ls, Cleared(ls, wd), Cleared(ls, bd))
  {
  }

  /** On buffers of the right size, a reset gives back exactly what the constructor allocated. */
  lemma ClearedIsFresh(ls: seq<Layer>, wd: Slots, bd: Slots)
    requires Aligned(ls, wd, bd) && Fitted(ls, wd, bd)
    ensures Cleared(ls, wd) == FreshSlots(ls, Weight)
    ensures Cleared(ls, bd) == FreshSlots(ls, Bias)
  {
  }

  /** `W -= rate * dW; B -= rate * dB` on one layer; its other tensors are untouched. */
  function Step(l: Layer, dw: Tensor, db: Tensor, rate: real): (l': Layer)
    requires HasW(l) && |dw| == |l.W| && |db| == |l.B|
    ensures SameStructure(l', l)
  {
    l.(W := Descend(l.W, rate, dw), B := Descend(l.B, rate, db))
  }

  /** The layers after `applyDeltas(rate)`. */
  function Applied(ls: seq<Layer>, wd: Slots, bd: Slots, rate: real): (r: seq<Layer>)
    requires Aligned(ls, wd, bd) && Fitted(ls, wd, bd)
    ensures |r| == |ls| && forall i :: 0 <= i < |ls| ==> SameStructure(r[i], ls[i])
    ensures Aligned(r, wd, bd) && Fitted(r, wd, bd)
  {
    seq(|ls|, i requires 0 <= i < |ls| =>
      if HasW(ls[i]) then Step(ls[i], wd[i].value, bd[i].value, rate) else ls[i])
  }

  /** What `applyDeltas` does to each tensor of each layer. */
  lemma AppliedElementwise(ls: seq<Layer>, wd: Slots, bd: Slots, rate: real)
    requires Aligned(ls, wd, bd) && Fitted(ls, wd, bd)
    ensures forall i :: 0 <= i < |ls| && !HasW(ls[i]) ==> Applied(ls, wd, bd, rate)[i] == ls[i]
    ensures forall i, k :: 0 <= i < |ls| && HasW(ls[i]) && 0 <= k < |ls[i].W| ==>
      Applied(ls, wd, bd, rate)[i].W[k] == ls[i].W[k] - rate * wd[i].value[k]
    ensures forall i, k :: 0 <= i < |ls| && HasW(ls[i]) && 0 <= k < |ls[i].B| ==>
      Applied(ls, wd, bd, rate)[i].B[k] == ls[i].B[k] - rate * bd[i].value[k]
    ensures forall i, r :: 0 <= i < |ls| && Carries(ls[i], r) && r != Weight && r != Bias ==>
      Field(Applied(ls, wd, bd, rate)[i], r) == Field(ls[i], r)
  {
  }

  /** A zero learning rate leaves every layer unchanged. */
  lemma AppliedZeroRate(ls: seq<Layer>, wd: Slots, bd: Slots)
    requires Aligned(ls, wd, bd) && Fitted(ls, wd, bd)
    ensures Applied(ls, wd, bd, 0.0) == ls
  {
    var r := Applied(ls, wd, bd, 0.0);
    forall i | 0 <= i < |ls| ensures r[i] == ls[i] {
      if HasW(ls[i]) {
        assert r[i].W == ls[i].W;
        assert r[i].B == ls[i].B;
      }
    }
  }

  /** Applying all-zero buffers (right after construction or a reset) is a no-op. */
  lemma AppliedZeroed(ls: seq<Layer>, wd: Slots, bd: Slots, rate: real)
    requires Aligned(ls, wd, bd) && Fitted(ls, wd, bd)
    requires Zeroed(wd) && Zeroed(bd)
    ensures Applied(ls, wd, bd, rate) == ls
  {
    var r := Applied(ls, wd, bd, rate);
    forall i | 0 <= i < |ls| ensures r[i] == ls[i] {
      if HasW(ls[i]) {
        DescendZero(ls[i].W, rate, wd[i].value);
        DescendZero(ls[i].B, rate, bd[i].value);
      }
    }
  }

  /**
   * The apply step does not consume the buffers: applying twice against the
   * same accumulated gradients is one step with the summed rate.
   */
  lemma AppliedTwice(ls: seq<Layer>, wd: Slots, bd: Slots, a: real, b: real)
    requires Aligned(ls, wd, bd) && Fitted(ls, wd, bd)
    ensures Applied(Applied(ls, wd, bd, a), wd, bd, b) == Applied(ls, wd, bd, a + b)
  {
    var once := Applied(ls, wd, bd, a);
    var twice := Applied(once, wd, bd, b);
    var sum := Applied(ls, wd, bd, a + b);
    forall i | 0 <= i < |ls| ensures twice[i] == sum[i] {
      if HasW(ls[i]) {
        DescendTwice(ls[i].W, a, b, wd[i].value);
        DescendTwice(ls[i].B, a, b, bd[i].value);
      }
    }
  }

  /** Replacing layers by layers of the same structure keeps the slots aligned. */
  lemma AlignedRestructured(ls: seq<Layer>, ls': seq<Layer>, wd: Slots, bd: Slots)
    requires Aligned(ls, wd, bd)
    requires |ls'| == |ls| && forall i :: 0 <= i < |ls| ==> SameStructure(ls'[i], ls[i])
    ensures Aligned(ls', wd, bd)
  {
  }
}
