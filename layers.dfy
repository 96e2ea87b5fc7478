/**
 * The layers of a stack, as far as the container can observe them. The source
 * tells layers apart by probing for the attributes `W` and `scale`; here that
 * capability is the constructor of `Layer`. A layer's own arithmetic (kernel
 * sliding, activation, dropout masks, batch statistics) is not part of this
 * model: the passes receive it as function parameters.
 */
module Layers {
  import opened Tensors

  /** The layer classes the two stacks are built from. */
  datatype Kind = Conv2D | TConv2D | Dense | Dropout

  /**
   * Stateless: owns no persisted tensor (a dropout layer).
   * Param: owns a weight `W` and a bias `B`.
   * ParamStats: also owns the four batch-normalisation tensors.
   */
  datatype Layer =
    | Stateless(kind: Kind)
    | Param(kind: Kind, W: Tensor, B: Tensor)
    | ParamStats(kind: Kind, W: Tensor, B: Tensor,
                 scale: Tensor, shift: Tensor, runningMean: Tensor, runningVar: Tensor)

  /** `hasattr(layer, 'W')` (and equally `hasattr(layer, 'B')`). */
  predicate HasW(l: Layer) {
    !l.Stateless?
  }

  /** `hasattr(layer, 'scale')`. */
  predicate HasScale(l: Layer) {
    l.ParamStats?
  }

  /** The tensors a layer may persist. */
  datatype Role = Weight | Bias | Scale | Shift | RunningMean | RunningVar

  /** The position of a role in the order the source reads and writes a layer's tensors. */
  function Rank(r: Role): nat {
    match r
    case Weight => 0
    case Bias => 1
    case Scale => 2
    case Shift => 3
    case RunningMean => 4
    case RunningVar => 5
  }

  /** Whether layer `l` owns the tensor of role `r`. */
  predicate Carries(l: Layer, r: Role) {
    if r == Weight || r == Bias then HasW(l) else HasScale(l)
  }

  /** The roles a layer owns, in the order the source visits them. */
  function Roles(l: Layer): (rs: seq<Role>)
    ensures forall r :: r in rs <==> Carries(l, r)
    ensures forall a, b :: 0 <= a < b < |rs| ==> Rank(rs[a]) < Rank(rs[b])
  {
    (if HasW(l) then [Weight, Bias] else [])
    + (if HasScale(l) then [Scale, Shift, RunningMean, RunningVar] else [])
  }

  /** The tensor of role `r` in layer `l`. */
  function Field(l: Layer, r: Role): Tensor
    requires Carries(l, r)
  {
    match r
    case Weight => l.W
    case Bias => l.B
    case Scale => l.scale
    case Shift => l.shift
    case RunningMean => l.runningMean
    case RunningVar => l.runningVar
  }

  /** Same layer class and same capabilities; the tensors may differ. */
  predicate SameStructure(a: Layer, b: Layer) {
    a.kind == b.kind && a.Stateless? == b.Stateless? && a.ParamStats? == b.ParamStats?
  }

  /** Assigning one tensor of a layer, as `layer.W = ...` does. */
  function SetField(l: Layer, r: Role, t: Tensor): (l': Layer)
    requires Carries(l, r)
    ensures SameStructure(l', l)
    ensures forall r' :: Carries(l', r') <==> Carries(l, r')
    ensures Field(l', r) == t
    ensures forall r' :: Carries(l, r') && r' != r ==> Field(l', r') == Field(l, r')
  {
    match r
    case Weight => l.(W := t)
    case Bias => l.(B := t)
    case Scale => l.(scale := t)
    case Shift => l.(shift := t)
    case RunningMean => l.(runningMean := t)
    case RunningVar => l.(runningVar := t)
  }

  /** A layer is determined by its structure and the tensors it owns. */
  lemma DeterminedByFields(a: Layer, b: Layer)
    requires SameStructure(a, b)
    requires forall r :: Carries(a, r) ==> Field(a, r) == Field(b, r)
    ensures a == b
  {
    if HasW(a) {
      assert Field(a, Weight) == Field(b, Weight);
      assert Field(a, Bias) == Field(b, Bias);
    }
    if HasScale(a) {
      assert Field(a, Scale) == Field(b, Scale);
      assert Field(a, Shift) == Field(b, Shift);
      assert Field(a, RunningMean) == Field(b, RunningMean);
      assert Field(a, RunningVar) == Field(b, RunningVar);
    }
  }
}
