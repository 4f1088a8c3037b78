/**
 * Exact (real-valued) vector and matrix algebra that the LSTM layer's
 * tensors stand for. Float32 rounding is not modelled: every value is a `real`.
 */
module Vectors {

  type Vector = seq<real>

  /** A matrix stored row-major, as a sequence of rows. */
  type Matrix = seq<Vector>

  predicate IsMatrix(a: Matrix, rows: nat, cols: nat)
  {
    |a| == rows && forall k :: 0 <= k < rows ==> |a[k]| == cols
  }

  /** The contents of a freshly allocated tensor of length `n`. */
  function Zeros(n: nat): Vector
  {
    seq(n, _ => 0.0)
  }

  function Add(a: Vector, b: Vector): Vector
    requires |a| == |b|
  {
    seq(|a|, k requires 0 <= k < |a| => a[k] + b[k])
  }

  function Sum3(a: Vector, b: Vector, c: Vector): Vector
    requires |a| == |b| == |c|
  {
    seq(|a|, k requires 0 <= k < |a| => a[k] + b[k] + c[k])
  }

  /** Elementwise product. */
  function Hadamard(a: Vector, b: Vector): Vector
    requires |a| == |b|
  {
    seq(|a|, k requires 0 <= k < |a| => a[k] * b[k])
  }

  /** An elementwise (activation) function applied to every entry. */
  function MapVec(f: real -> real, a: Vector): Vector
  {
    seq(|a|, k requires 0 <= k < |a| => f(a[k]))
  }

  predicate HasColumn(a: Matrix, j: nat)
  {
    forall k :: 0 <= k < |a| ==> j < |a[k]|
  }

  /**
   * Column `j` of `a` dotted with `v`, summed in increasing row order:
   * entry `j` of the product of the transposed matrix with `v`.
   */
  function ColumnDot(a: Matrix, v: Vector, j: nat): real
    requires |a| == |v| && HasColumn(a, j)
    decreases |v|
  {
    if |v| == 0 then 0.0
    else ColumnDot(a[..|v| - 1], v[..|v| - 1], j) + a[|v| - 1][j] * v[|v| - 1]
  }

  /**
   * The transposed matrix applied to `v`: for an `m`-by-`n` matrix `a`
   * and a vector of length `m`, the vector of length `n` whose entry `j`
   * is the sum over `k` of `a[k][j] * v[k]`.
   */
  function MatTVec(a: Matrix, v: Vector, n: nat): (r: Vector)
    requires IsMatrix(a, |v|, n)
    ensures |r| == n
  {
    seq(n, j requires 0 <= j < n => ColumnDot(a, v, j))
  }

  /** Every column of any matrix has a zero dot product with the zero vector. */
  lemma {:induction false} ColumnDotOfZeros(a: Matrix, j: nat)
    requires HasColumn(a, j)
    ensures ColumnDot(a, Zeros(|a|), j) == 0.0
  {
    if |a| > 0 {
      var m := |a| - 1;
      assert Zeros(|a|)[..m] == Zeros(m);
      ColumnDotOfZeros(a[..m], j);
    }
  }

  /** The transposed product of any matrix with the zero vector is zero. */
  lemma MatTVecOfZeros(a: Matrix, m: nat, n: nat)
    requires IsMatrix(a, m, n)
    ensures MatTVec(a, Zeros(m), n) == Zeros(n)
  {
    forall j | 0 <= j < n
      ensures MatTVec(a, Zeros(m), n)[j] == 0.0
    {
      ColumnDotOfZeros(a, j);
    }
  }

  /** The zero vector is a right identity of Add. */
  lemma AddZerosRight(a: Vector)
    ensures Add(a, Zeros(|a|)) == a
  {
    assert forall k :: 0 <= k < |a| ==> Add(a, Zeros(|a|))[k] == a[k];
  }

  /** The zero vector annihilates elementwise products. */
  lemma HadamardZerosLeft(b: Vector)
    ensures Hadamard(Zeros(|b|), b) == Zeros(|b|)
  {
    assert forall k :: 0 <= k < |b| ==> Hadamard(Zeros(|b|), b)[k] == 0.0;
  }
}
