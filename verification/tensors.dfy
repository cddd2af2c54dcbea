/**
 Named parameters of a probabilistic model, as the marshalling layer sees them:
 a dotted name, a shape, the elements in row-major order, an opaque
 precision/storage tag, and the bound the model declares for the parameter
 through its constraint, if any.
 */
module Tensors {
  import opened Wrappers

  /** A tensor shape; the empty shape is a zero-dimensional scalar. */
  type Shape = seq<nat>

  /** Number of elements of a tensor of the given shape (the product of its
      dimensions, so a scalar has one element). */
  function Numel(shape: Shape): nat
  {
    if |shape| == 0 then 1 else shape[0] * Numel(shape[1..])
  }

  /** A real extended with the two infinities a bound may use. */
  datatype Ext = NegInf | Fin(value: real) | PosInf

  /** A (lower, upper) pair of bounds. */
  datatype Bound = Bound(lower: Ext, upper: Ext)

  /** The bound that constrains nothing: (-inf, +inf). */
  const Unbounded := Bound(NegInf, PosInf)

  /** Numeric precision of a tensor. */
  datatype DType = Float32 | Float64

  /** Precision and storage location, carried through unchanged. */
  datatype Meta = Meta(dtype: DType, device: string)

  /** One named parameter. `vals` holds the elements in row-major order;
      `declared` is the bound derived from the parameter's constraint, when the
      parameter has a constraint. */
  datatype Param = Param(name: string, shape: Shape, vals: seq<real>, meta: Meta, declared: Option<Bound>)

  /** A model: its parameters in discovery order, and whether it can enumerate
      its parameters together with their constraints. */
  datatype Module = Module(params: seq<Param>, enumeratesConstraints: bool)

  /** A tensor holds exactly as many elements as its shape describes. */
  predicate WellShaped(p: Param)
  {
    |p.vals| == Numel(p.shape)
  }

  predicate DistinctNames(ps: seq<Param>)
  {
    forall i, j :: 0 <= i < j < |ps| ==> ps[i].name != ps[j].name
  }

  predicate AllWellShaped(ps: seq<Param>)
  {
    forall i :: 0 <= i < |ps| ==> WellShaped(ps[i])
  }

  /** What every model guarantees of its parameter enumeration. */
  predicate Valid(m: Module)
  {
    DistinctNames(m.params) && AllWellShaped(m.params)
  }
}
