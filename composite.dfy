/**
 * The composite model shared by the discriminator and the generator: an
 * ordered stack of layers plus the two lists `W_deltas` and `B_deltas` of
 * gradient-accumulation buffers, index-aligned with the layers. Lists the
 * source mutates are fields of type `seq` that the methods reassign; a buffer
 * filled in place, or a layer whose attributes are assigned, is a slot or an
 * element replaced by its new value.
 */
module Composite {
  import opened Wrappers
  import opened Tensors
  import opened Layers
  import opened Deltas
  import opened Passes
  import opened StateKeys
  import opened Snapshot

  class CompositeModel {
    var layers: seq<Layer>
    var wDeltas: Slots
    var bDeltas: Slots

    /** One slot per layer, present exactly at the layers that own `W`. Every operation keeps it. */
    ghost predicate Valid()
      reads this
    {
      Aligned(layers, wDeltas, bDeltas)
    }

    /**
     * Every buffer has the size of its tensor. Import can break this, since it
     * checks no sizes and never reallocates the buffers.
     */
    ghost predicate ShapesAgree()
      reads this
      requires Valid()
    {
      Fitted(layers, wDeltas, bDeltas)
    }

    /** `__init__`: takes the stack and allocates one zero buffer per owned `W` and `B`. */
    constructor (stack: seq<Layer>)
      ensures layers == stack
      ensures wDeltas == FreshSlots(stack, Weight) && bDeltas == FreshSlots(stack, Bias)
      ensures Valid() && ShapesAgree() && Zeroed(wDeltas) && Zeroed(bDeltas)
    {
      layers := stack;
      wDeltas := FreshSlots(stack, Weight);
      bDeltas := FreshSlots(stack, Bias);
      FreshSlotsValid(stack);
    }

    /** `applyDeltas(learning_rate)`: one gradient-descent step on every layer that owns `W`. */
    method ApplyDeltas(learningRate: real)
      requires Valid() && ShapesAgree()
      modifies this
      ensures layers == Applied(old(layers), old(wDeltas), old(bDeltas), learningRate)
      ensures wDeltas == old(wDeltas) && bDeltas == old(bDeltas)
      ensures Valid() && ShapesAgree()
    {
      ghost var target := Applied(layers, wDeltas, bDeltas, learningRate);
      var i := 0;
      while i < |layers|
        invariant 0 <= i <= |layers| == |old(layers)|
        invariant wDeltas == old(wDeltas) && bDeltas == old(bDeltas)
        invariant forall j :: 0 <= j < i ==> layers[j] == target[j]
        invariant forall j :: i <= j < |layers| ==> layers[j] == old(layers)[j]
      {
        var layer := layers[i];
        if HasW(layer) {
          layer := layer.(W := Descend(layer.W, learningRate, wDeltas[i].value));
          layer := layer.(B := Descend(layer.B, learningRate, bDeltas[i].value));
          layers := layers[i := layer];
        }
        i := i + 1;
      }
    }

    /** `resetDeltas()`: `fill(0)` on both buffers of every layer that owns `W`. */
    method ResetDeltas()
      requires Valid()
      modifies this
      ensures layers == old(layers)
      ensures wDeltas == Cleared(layers, old(wDeltas)) && bDeltas == Cleared(layers, old(bDeltas))
      ensures Valid() && Zeroed(wDeltas) && Zeroed(bDeltas)
      ensures old(ShapesAgree()) ==> ShapesAgree()
    {
      ghost var w0, b0 := wDeltas, bDeltas;
      ClearedValid(layers, w0, b0);
      var i := 0;
      while i < |layers|
        invariant 0 <= i <= |layers| && layers == old(layers)
        invariant |wDeltas| == |bDeltas| == |layers|
        invariant forall j :: 0 <= j < i ==> wDeltas[j] == Cleared(layers, w0)[j] && bDeltas[j] == Cleared(layers, b0)[j]
        invariant forall j :: i <= j < |layers| ==> wDeltas[j] == w0[j] && bDeltas[j] == b0[j]
      {
        if HasW(layers[i]) {
          wDeltas := wDeltas[i := Some(Zeros(|wDeltas[i].value|))];
          bDeltas := bDeltas[i := Some(Zeros(|bDeltas[i].value|))];
        }
        i := i + 1;
      }
    }

    /** `forward(x)`: threads `x` through the layers, first to last. */
    method Forward(x: Tensor, forward: ForwardOp) returns (y: Tensor)
      ensures y == Run(layers, x, forward)
    {
      y := x;
      var i := 0;
      while i < |layers|
        invariant 0 <= i <= |layers|
        invariant Run(layers[i..], y, forward) == Run(layers, x, forward)
      {
        assert layers[i..][1..] == layers[i + 1..];
        y := forward(layers[i], y);
        i := i + 1;
      }
    }

    /**
     * `backward(gradient)`: threads the gradient through the layers, last to
     * first, lending a layer its two buffers exactly when it owns `W`. The
     * ghost `calls` records the calls in the order they are made.
     */
    method Backward(gradient: Tensor, paramBackward: ParamBackwardOp, statelessBackward: StatelessBackwardOp)
      returns (g: Tensor, ghost calls: seq<Call>)
      requires Valid()
      modifies this
      ensures layers == old(layers)
      ensures (g, wDeltas, bDeltas)
           == BackwardFrom(layers, |layers|, gradient, old(wDeltas), old(bDeltas), paramBackward, statelessBackward)
      ensures calls == BackwardCalls(layers, |layers|)
      ensures Valid()
      ensures KeepsShapes(paramBackward) && old(ShapesAgree()) ==> ShapesAgree()
    {
      g := gradient;
      calls := [];
      var wd, bd := wDeltas, bDeltas;
      var i := |layers|;
      while i > 0
        invariant 0 <= i <= |layers|
        invariant Aligned(layers, wd, bd)
        invariant BackwardFrom(layers, i, g, wd, bd, paramBackward, statelessBackward)
               == BackwardFrom(layers, |layers|, gradient, wDeltas, bDeltas, paramBackward, statelessBackward)
        invariant calls + BackwardCalls(layers, i) == BackwardCalls(layers, |layers|)
      {
        i := i - 1;
        assert calls + BackwardCalls(layers, i + 1) == (calls + [CallAt(layers, i)]) + BackwardCalls(layers, i);
        if HasW(layers[i]) {
          var (g', dw, db) := paramBackward(layers[i], g, wd[i].value, bd[i].value);
          g, wd, bd := g', wd[i := Some(dw)], bd[i := Some(db)];
          calls := calls + [WithDeltas(i)];
        } else {
          g := statelessBackward(layers[i], g);
          calls := calls + [GradientOnly(i)];
        }
      }
      wDeltas, bDeltas := wd, bd;
    }

    /** `state_dict()`: the tensors of every layer under `layer_{i}_{field}`. */
    method StateDict() returns (state: map<string, Tensor>)
      ensures state == Export(layers)
    {
      state := map[];
      var i := 0;
      while i < |layers|
        invariant 0 <= i <= |layers|
        invariant state == ExportPrefix(layers, i)
      {
        var layer := layers[i];
        PutFieldsOfLayer(state, i, layer);
        if HasW(layer) {
          state := state[KeyName(Key(i, Weight)) := layer.W];
          state := state[KeyName(Key(i, Bias)) := layer.B];
        }
        if HasScale(layer) {
          state := state[KeyName(Key(i, Scale)) := layer.scale];
          state := state[KeyName(Key(i, Shift)) := layer.shift];
          state := state[KeyName(Key(i, RunningMean)) := layer.runningMean];
          state := state[KeyName(Key(i, RunningVar)) := layer.runningVar];
        }
        i := i + 1;
      }
    }

    /**
     * `load_state_dict(state)`: assigns every owned tensor from `state`, layer
     * by layer; stops with the missing key when an entry is absent, leaving what
     * was already assigned in place. The buffers are not touched.
     */
    method LoadStateDict(state: map<string, Tensor>) returns (outcome: LoadOutcome)
      requires Valid()
      modifies this
      ensures (layers, outcome) == LoadFrom(old(layers), 0, state)
      ensures wDeltas == old(wDeltas) && bDeltas == old(bDeltas)
      ensures Valid()
    {
      var ls := layers;
      var i := 0;
      while i < |ls|
        invariant 0 <= i <= |ls| == |layers|
        invariant forall j :: 0 <= j < |ls| ==> SameStructure(ls[j], layers[j])
        invariant LoadFrom(ls, i, state) == LoadFrom(layers, 0, state)
      {
        var (layer, missing) := LoadLayer(i, ls[i], state);
        ls := ls[i := layer];
        if missing.Some? {
          AlignedRestructured(layers, ls, wDeltas, bDeltas);
          layers := ls;
          return MissingKey(missing.value);
        }
        i := i + 1;
      }
      AlignedRestructured(layers, ls, wDeltas, bDeltas);
      layers := ls;
      outcome := Loaded;
    }
  }
}
