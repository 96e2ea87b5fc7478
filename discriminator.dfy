/**
 * The discriminator: a composite model over two stride-2 convolutions, each
 * followed by dropout, and a one-neuron dense layer. Its container code is the
 * shared CompositeModel, whose backward pass lends the buffers only to the
 * layers that own `W`. The initial tensors come from the layer constructors,
 * which are not part of this model, so they are parameters here.
 */
module Discriminator {
  import opened Wrappers
  import opened Tensors
  import opened Layers
  import opened Passes
  import opened StateKeys
  import opened Snapshot
  import opened Composite

  /** The layer stack `__init__` builds, from the tensors the three parameterised layers start with. */
  function Stack(w: seq<Tensor>, b: seq<Tensor>): (ls: seq<Layer>)
    requires |w| == 3 && |b| == 3
    ensures |ls| == 5
    ensures forall i :: 0 <= i < |ls| ==> (HasW(ls[i]) <==> i % 2 == 0) && !HasScale(ls[i])
  {
    [Param(Conv2D, w[0], b[0]), Stateless(Dropout), Param(Conv2D, w[1], b[1]), Stateless(Dropout),
     Param(Dense, w[2], b[2])]
  }

  /** `Discriminator(batch_size)`: the stack, with a zero buffer for each of its three `W` and `B`. */
  method New(w: seq<Tensor>, b: seq<Tensor>) returns (m: CompositeModel)
    requires |w| == 3 && |b| == 3
    ensures fresh(m) && m.layers == Stack(w, b)
    ensures m.wDeltas == [Some(Zeros(|w[0]|)), None, Some(Zeros(|w[1]|)), None, Some(Zeros(|w[2]|))]
    ensures m.bDeltas == [Some(Zeros(|b[0]|)), None, Some(Zeros(|b[1]|)), None, Some(Zeros(|b[2]|))]
    ensures m.Valid() && m.ShapesAgree()
  {
    m := new CompositeModel(Stack(w, b));
  }

  /**
   * The snapshot of a discriminator holds `layer_{i}_W` and `layer_{i}_B` for
   * layers 0, 2 and 4 and nothing else: dropout owns no tensors and no layer
   * has batch-normalisation statistics.
   */
  lemma SnapshotKeys(w: seq<Tensor>, b: seq<Tensor>)
    requires |w| == 3 && |b| == 3
    ensures forall k: Key :: KeyName(k) in Export(Stack(w, b)) <==>
      (k.index == 0 || k.index == 2 || k.index == 4) && (k.role == Weight || k.role == Bias)
    ensures forall name :: name in Export(Stack(w, b)) ==>
      exists k: Key :: name == KeyName(k) && (k.index == 0 || k.index == 2 || k.index == 4)
  {
    var ls := Stack(w, b);
    ExportContents(ls);
    forall k: Key
      ensures Required(ls, k) <==> (k.index == 0 || k.index == 2 || k.index == 4) && (k.role == Weight || k.role == Bias)
    {
      if k.index < 5 {
        assert !HasScale(ls[k.index]);
      }
    }
    ExportOnlyKeys(ls);
  }

  /**
   * The backward pass visits the layers from 4 down to 0 and lends the buffers
   * to the convolutions and the dense layer only.
   */
  lemma BackwardDispatch(w: seq<Tensor>, b: seq<Tensor>)
    requires |w| == 3 && |b| == 3
    ensures BackwardCalls(Stack(w, b), 5)
         == [WithDeltas(4), GradientOnly(3), WithDeltas(2), GradientOnly(1), WithDeltas(0)]
  {
    var ls := Stack(w, b);
    BackwardCallOrder(ls, 5);
    var calls := BackwardCalls(ls, 5);
    assert HasW(ls[4]) && !HasW(ls[3]) && HasW(ls[2]) && !HasW(ls[1]) && HasW(ls[0]);
    assert calls[0].index == 4 && calls[1].index == 3 && calls[2].index == 2;
    assert calls[3].index == 1 && calls[4].index == 0;
  }

  /** The forward pass is the dense layer over dropout over a convolution, twice, in that order. */
  lemma ForwardOrder(w: seq<Tensor>, b: seq<Tensor>, x: Tensor, forward: ForwardOp)
    requires |w| == 3 && |b| == 3
    ensures Run(Stack(w, b), x, forward)
         == forward(Param(Dense, w[2], b[2]),
              forward(Stateless(Dropout),
                forward(Param(Conv2D, w[1], b[1]),
                  forward(Stateless(Dropout),
                    forward(Param(Conv2D, w[0], b[0]), x)))))
  {
    var ls := Stack(w, b);
    RunSnoc(ls[..4], ls[4], x, forward);
    RunSnoc(ls[..3], ls[3], x, forward);
    RunSnoc(ls[..2], ls[2], x, forward);
    RunSnoc(ls[..1], ls[1], x, forward);
    assert ls[..4] + [ls[4]] == ls;
    assert ls[..3] + [ls[3]] == ls[..4];
    assert ls[..2] + [ls[2]] == ls[..3];
    assert ls[..1] + [ls[1]] == ls[..2];
  }
}
