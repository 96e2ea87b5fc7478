/**
 * The generator: a composite model over a batch-normalised dense layer, two
 * batch-normalised transposed convolutions and a final transposed
 * convolution. Its container code is the shared CompositeModel except for the
 * backward pass, which hands every layer its two buffers without asking
 * whether the layer owns `W`. That is only well formed because every layer of
 * the stack is parameterised, so the pass here requires it of the stack.
 */
module Generator {
  import opened Wrappers
  import opened Tensors
  import opened Layers
  import opened Deltas
  import opened Passes
  import opened StateKeys
  import opened Snapshot
  import opened Composite

  /**
   * The layer stack `__init__` builds, from the tensors the layers start with:
   * `w` and `b` for all four layers, the batch-normalisation tensors for the
   * first three.
   */
  function Stack(w: seq<Tensor>, b: seq<Tensor>, scale: seq<Tensor>, shift: seq<Tensor>,
                 mean: seq<Tensor>, variance: seq<Tensor>): (ls: seq<Layer>)
    requires |w| == 4 && |b| == 4 && |scale| == 3 && |shift| == 3 && |mean| == 3 && |variance| == 3
    ensures |ls| == 4
    ensures forall i :: 0 <= i < |ls| ==> HasW(ls[i]) && (HasScale(ls[i]) <==> i < 3)
  {
    [ParamStats(Dense, w[0], b[0], scale[0], shift[0], mean[0], variance[0]),
     ParamStats(TConv2D, w[1], b[1], scale[1], shift[1], mean[1], variance[1]),
     ParamStats(TConv2D, w[2], b[2], scale[2], shift[2], mean[2], variance[2]),
     Param(TConv2D, w[3], b[3])]
  }

  /** Every layer owns `W` and `B`, so every slot holds a buffer. */
  predicate AllParameterised(ls: seq<Layer>) {
    forall i :: 0 <= i < |ls| ==> HasW(ls[i])
  }

  /** `Generator(batch_size)`: the stack, with a zero buffer for every layer's `W` and `B`. */
  method New(w: seq<Tensor>, b: seq<Tensor>, scale: seq<Tensor>, shift: seq<Tensor>,
             mean: seq<Tensor>, variance: seq<Tensor>) returns (m: CompositeModel)
    requires |w| == 4 && |b| == 4 && |scale| == 3 && |shift| == 3 && |mean| == 3 && |variance| == 3
    ensures fresh(m) && m.layers == Stack(w, b, scale, shift, mean, variance)
    ensures m.wDeltas == seq(4, i requires 0 <= i < 4 => Some(Zeros(|w[i]|)))
    ensures m.bDeltas == seq(4, i requires 0 <= i < 4 => Some(Zeros(|b[i]|)))
    ensures m.Valid() && m.ShapesAgree() && AllParameterised(m.layers)
  {
    m := new CompositeModel(Stack(w, b, scale, shift, mean, variance));
  }

  /**
   * The snapshot of a generator holds `W` and `B` for all four layers and the
   * four batch-normalisation tensors for the first three, and nothing else.
   */
  lemma SnapshotKeys(w: seq<Tensor>, b: seq<Tensor>, scale: seq<Tensor>, shift: seq<Tensor>,
                     mean: seq<Tensor>, variance: seq<Tensor>)
    requires |w| == 4 && |b| == 4 && |scale| == 3 && |shift| == 3 && |mean| == 3 && |variance| == 3
    ensures forall k: Key :: KeyName(k) in Export(Stack(w, b, scale, shift, mean, variance)) <==>
      k.index < 4 && (k.role == Weight || k.role == Bias || k.index < 3)
    ensures forall name :: name in Export(Stack(w, b, scale, shift, mean, variance)) ==>
      exists k: Key :: name == KeyName(k) && k.index < 4
  {
    var ls := Stack(w, b, scale, shift, mean, variance);
    ExportContents(ls);
    ExportOnlyKeys(ls);
    forall k: Key ensures Required(ls, k) <==> k.index < 4 && (k.role == Weight || k.role == Bias || k.index < 3) {
      if k.index < 4 {
        assert HasW(ls[k.index]) && (HasScale(ls[k.index]) <==> k.index < 3);
      }
    }
  }

  /**
   * `backward(gradient)` over layers `n - 1` down to `0`: every layer gets
   * the gradient and its two buffers.
   */
  function BackwardAll(ls: seq<Layer>, n: nat, g: Tensor, wd: Slots, bd: Slots, paramBackward: ParamBackwardOp)
    : (r: (Tensor, Slots, Slots))
    requires n <= |ls| && Aligned(ls, wd, bd) && AllParameterised(ls)
    ensures Aligned(ls, r.1, r.2)
    ensures forall i :: n <= i < |ls| ==> r.1[i] == wd[i] && r.2[i] == bd[i]
    decreases n
  {
    if n == 0 then (g, wd, bd)
    else
      var i := n - 1;
      var (g', dw, db) := paramBackward(ls[i], g, wd[i].value, bd[i].value);
      BackwardAll(ls, i, g', wd[i := Some(dw)], bd[i := Some(db)], paramBackward)
  }

  /**
   * On a stack where every layer owns `W`, handing the buffers over
   * unconditionally is the same pass as the discriminator's dispatching one,
   * whatever the stateless backward would have been.
   */
  lemma {:induction false} BackwardAllAgrees(ls: seq<Layer>, n: nat, g: Tensor, wd: Slots, bd: Slots,
                                             paramBackward: ParamBackwardOp, statelessBackward: StatelessBackwardOp)
    requires n <= |ls| && Aligned(ls, wd, bd) && AllParameterised(ls)
    ensures BackwardAll(ls, n, g, wd, bd, paramBackward)
         == BackwardFrom(ls, n, g, wd, bd, paramBackward, statelessBackward)
    decreases n
  {
    if n > 0 {
      var i := n - 1;
      assert HasW(ls[i]);
      var (g', dw, db) := paramBackward(ls[i], g, wd[i].value, bd[i].value);
      var wd', bd' := wd[i := Some(dw)], bd[i := Some(db)];
      assert Aligned(ls, wd', bd');
      BackwardAllAgrees(ls, i, g', wd', bd', paramBackward, statelessBackward);
    }
  }

  /** On such a stack, every backward call lends the buffers. */
  lemma {:induction false} BackwardCallsAllWithDeltas(ls: seq<Layer>, n: nat)
    requires n <= |ls| && AllParameterised(ls)
    ensures BackwardCalls(ls, n) == seq(n, j requires 0 <= j < n => WithDeltas(n - 1 - j))
  {
    BackwardCallOrder(ls, n);
    var calls := BackwardCalls(ls, n);
    forall j | 0 <= j < n ensures calls[j] == WithDeltas(n - 1 - j) {
      assert HasW(ls[n - 1 - j]);
    }
  }

  /**
   * The generator's `backward(gradient)`, on the shared container: the layers
   * from last to first, each called with its buffers. The ghost `calls`
   * records the calls in the order they are made.
   */
  method Backward(m: CompositeModel, gradient: Tensor, paramBackward: ParamBackwardOp)
    returns (g: Tensor, ghost calls: seq<Call>)
    requires m.Valid() && AllParameterised(m.layers)
    modifies m
    ensures m.layers == old(m.layers)
    ensures (g, m.wDeltas, m.bDeltas) == BackwardAll(m.layers, |m.layers|, gradient, old(m.wDeltas), old(m.bDeltas), paramBackward)
    ensures calls == BackwardCalls(m.layers, |m.layers|)
    ensures |calls| == |m.layers| && forall j :: 0 <= j < |calls| ==> calls[j] == WithDeltas(|m.layers| - 1 - j)
    ensures m.Valid()
    ensures KeepsShapes(paramBackward) && old(m.ShapesAgree()) ==> m.ShapesAgree()
  {
    var ls, wd, bd := m.layers, m.wDeltas, m.bDeltas;
    g := gradient;
    calls := [];
    var i := |ls|;
    while i > 0
      invariant 0 <= i <= |ls|
      invariant Aligned(ls, wd, bd)
      invariant BackwardAll(ls, i, g, wd, bd, paramBackward) == BackwardAll(ls, |ls|, gradient, m.wDeltas, m.bDeltas, paramBackward)
      invariant calls + BackwardCalls(ls, i) == BackwardCalls(ls, |ls|)
    {
      i := i - 1;
      assert HasW(ls[i]);
      assert calls + BackwardCalls(ls, i + 1) == (calls + [WithDeltas(i)]) + BackwardCalls(ls, i);
      var (g', dw, db) := paramBackward(ls[i], g, wd[i].value, bd[i].value);
      g, wd, bd := g', wd[i := Some(dw)], bd[i := Some(db)];
      calls := calls + [WithDeltas(i)];
    }
    BackwardAllAgrees(ls, |ls|, gradient, m.wDeltas, m.bDeltas, paramBackward, (l, t) => t);
    BackwardCallsAllWithDeltas(ls, |ls|);
    m.wDeltas, m.bDeltas := wd, bd;
  }

  /** The backward pass visits the layers from 3 down to 0 and lends every one of them its buffers. */
  lemma BackwardDispatch(w: seq<Tensor>, b: seq<Tensor>, scale: seq<Tensor>, shift: seq<Tensor>,
                         mean: seq<Tensor>, variance: seq<Tensor>)
    requires |w| == 4 && |b| == 4 && |scale| == 3 && |shift| == 3 && |mean| == 3 && |variance| == 3
    ensures BackwardCalls(Stack(w, b, scale, shift, mean, variance), 4)
         == [WithDeltas(3), WithDeltas(2), WithDeltas(1), WithDeltas(0)]
  {
    var ls := Stack(w, b, scale, shift, mean, variance);
    BackwardCallsAllWithDeltas(ls, 4);
  }
}
