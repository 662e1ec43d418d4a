/**
 The uniform (boxcar) log-prior of giamc.py: 0 when every parameter lies
 strictly between its bounds, minus infinity otherwise, after checking that
 the parameters and both bounds have the same shape.
 */
module Prior {
  import opened Wrappers

  /** A numpy array (or a bare float, whose shape is empty), flattened in row-major order. */
  datatype NdArray = NdArray(shape: seq<nat>, data: seq<real>)

  /** Number of elements an array of the given shape holds. */
  function Size(shape: seq<nat>): nat
  {
    if shape == [] then 1 else shape[0] * Size(shape[1..])
  }

  /** The data really fills the shape, as for every array numpy builds. */
  predicate WellFormed(a: NdArray)
  {
    |a.data| == Size(a.shape)
  }

  /** A bare float: the empty shape and one element. */
  function Scalar(x: real): NdArray
  {
    NdArray([], [x])
  }

  /** A one-dimensional array. */
  function Vector(xs: seq<real>): NdArray
  {
    NdArray([|xs|], xs)
  }

  /** The two values the prior can take: 0.0 and -inf. */
  datatype LnPrior = Zero | NegInf

  /** The assertion that rejects inputs of different shapes. */
  datatype PriorError = IncompatibleShapes

  /** Every element strictly inside its bounds: numpy's
      all(logical_and(lower < params, params < upper)), element by element. */
  function AllInside(lower: seq<real>, params: seq<real>, upper: seq<real>): (b: bool)
    requires |lower| == |params| == |upper|
    ensures b <==> forall i :: 0 <= i < |params| ==> lower[i] < params[i] < upper[i]
  {
    if params == [] then true
    else lower[0] < params[0] < upper[0] && AllInside(lower[1..], params[1..], upper[1..])
  }

  function UniformLnPrior(params: NdArray, lower: NdArray, upper: NdArray): (r: Result<LnPrior, PriorError>)
    requires WellFormed(params) && WellFormed(lower) && WellFormed(upper)
    ensures r.Failure? <==> !(params.shape == upper.shape == lower.shape)
    ensures r.Failure? ==> r.error == IncompatibleShapes
    ensures r == Success(Zero) <==>
              && params.shape == upper.shape == lower.shape
              && forall i :: 0 <= i < |params.data| ==> lower.data[i] < params.data[i] < upper.data[i]
    ensures r == Success(NegInf) <==>
              && params.shape == upper.shape == lower.shape
              && exists i :: 0 <= i < |params.data| && !(lower.data[i] < params.data[i] < upper.data[i])
  {
    if !(params.shape == upper.shape == lower.shape) then Failure(IncompatibleShapes)
    else if AllInside(lower.data, params.data, upper.data) then Success(Zero)
    else Success(NegInf)
  }

  /** The bounds are exclusive: a parameter sitting exactly on either bound is rejected. */
  lemma BoundsAreStrict(params: NdArray, lower: NdArray, upper: NdArray, i: nat)
    requires WellFormed(params) && WellFormed(lower) && WellFormed(upper)
    requires params.shape == upper.shape == lower.shape
    requires i < |params.data|
    requires params.data[i] == lower.data[i] || params.data[i] == upper.data[i]
    ensures UniformLnPrior(params, lower, upper) == Success(NegInf)
  {
  }

  /** A single float against scalar bounds: the open interval (lower, upper). */
  lemma ScalarPrior(x: real, lower: real, upper: real)
    ensures UniformLnPrior(Scalar(x), Scalar(lower), Scalar(upper))
              == Success(if lower < x < upper then Zero else NegInf)
  {
  }

  /** An array never matches a bare float's shape, so mixing them is an error, never a broadcast. */
  lemma NoBroadcasting(xs: seq<real>, lower: real, upper: real)
    ensures UniformLnPrior(Vector(xs), Scalar(lower), Scalar(upper)) == Failure(IncompatibleShapes)
  {
  }
}
