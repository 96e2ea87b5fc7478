/**
 * The forward and backward passes as functions on values. A layer's own
 * forward and backward computations are external: they are parameters here,
 * with no contract beyond their types. The parameterised backward receives
 * the two delta buffers of its layer and hands back their new contents, which
 * stands for the source lending the buffers by reference.
 */
module Passes {
  import opened Wrappers
  import opened Tensors
  import opened Layers
  import opened Deltas

  /** `layer.forward(x)`. */
  type ForwardOp = (Layer, Tensor) -> Tensor

  /** `layer.backward(gradient, dW, dB)`: the input gradient and the updated buffers. */
  type ParamBackwardOp = (Layer, Tensor, Tensor, Tensor) -> (Tensor, Tensor, Tensor)

  /** `layer.backward(gradient)` of a layer without parameters. */
  type StatelessBackwardOp = (Layer, Tensor) -> Tensor

  /** The layer contract the container relies on: buffers keep their size. */
  ghost predicate KeepsShapes(backward: ParamBackwardOp) {
    forall l, g, dw, db :: |backward(l, g, dw, db).1| == |dw| && |backward(l, g, dw, db).2| == |db|
  }

  /** `x` threaded through `ls` from the first layer to the last. */
  function Run(ls: seq<Layer>, x: Tensor, forward: ForwardOp): Tensor {
    if ls == [] then x else Run(ls[1..], forward(ls[0], x), forward)
  }

  /** The result of a pass is the last layer's output on what the layers before it produced. */
  lemma {:induction false} RunSnoc(ls: seq<Layer>, l: Layer, x: Tensor, forward: ForwardOp)
    ensures Run(ls + [l], x, forward) == forward(l, Run(ls, x, forward))
  {
    if ls != [] {
      assert (ls + [l])[1..] == ls[1..] + [l];
      RunSnoc(ls[1..], l, forward(ls[0], x), forward);
    }
  }

  /** Layers are applied in ascending order: a stack split in two runs its front part first. */
  lemma {:induction false} RunAppend(front: seq<Layer>, back: seq<Layer>, x: Tensor, forward: ForwardOp)
    ensures Run(front + back, x, forward) == Run(back, Run(front, x, forward), forward)
  {
    if front != [] {
      assert (front + back)[1..] == front[1..] + back;
      RunAppend(front[1..], back, forward(front[0], x), forward);
    } else {
      assert front + back == back;
    }
  }

  /** One backward call as the container issues it. */
  datatype Call = WithDeltas(index: nat) | GradientOnly(index: nat)

  /** The call made for layer `i`: with its buffers exactly when it owns `W`. */
  function CallAt(ls: seq<Layer>, i: nat): Call
    requires i < |ls|
  {
    if HasW(ls[i]) then WithDeltas(i) else GradientOnly(i)
  }

  /**
   * The backward pass over layers `n - 1` down to `0`, starting from gradient
   * `g`: the returned gradient and the delta slots afterwards.
   */
  function BackwardFrom(ls: seq<Layer>, n: nat, g: Tensor, wd: Slots, bd: Slots,
                        paramBackward: ParamBackwardOp, statelessBackward: StatelessBackwardOp)
    : (r: (Tensor, Slots, Slots))
    requires n <= |ls| && Aligned(ls, wd, bd)
    ensures Aligned(ls, r.1, r.2)
    ensures KeepsShapes(paramBackward) && Fitted(ls, wd, bd) ==> Fitted(ls, r.1, r.2)
    ensures forall i :: n <= i < |ls| ==> r.1[i] == wd[i] && r.2[i] == bd[i]
    decreases n
  {
    if n == 0 then (g, wd, bd)
    else
      var i := n - 1;
      if HasW(ls[i]) then
        var (g', dw, db) := paramBackward(ls[i], g, wd[i].value, bd[i].value);
        BackwardFrom(ls, i, g', wd[i := Some(dw)], bd[i := Some(db)], paramBackward, statelessBackward)
      else
        BackwardFrom(ls, i, statelessBackward(ls[i], g), wd, bd, paramBackward, statelessBackward)
  }

  /** The calls the backward pass over layers `n - 1` down to `0` makes, in order. */
  function BackwardCalls(ls: seq<Layer>, n: nat): seq<Call>
    requires n <= |ls|
  {
    if n == 0 then [] else [CallAt(ls, n - 1)] + BackwardCalls(ls, n - 1)
  }

  /**
   * Layers are visited once each, in strictly descending index order, and the
   * buffers go exactly to the layers that own `W`.
   */
  lemma {:induction false} BackwardCallOrder(ls: seq<Layer>, n: nat)
    requires n <= |ls|
    ensures |BackwardCalls(ls, n)| == n
    ensures forall j :: 0 <= j < n ==> BackwardCalls(ls, n)[j].index == n - 1 - j
    ensures forall j :: 0 <= j < n ==> (BackwardCalls(ls, n)[j].WithDeltas? <==> HasW(ls[n - 1 - j]))
  {
    if n > 0 {
      BackwardCallOrder(ls, n - 1);
    }
  }
}
