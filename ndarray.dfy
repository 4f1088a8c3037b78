/**
 * The tensor kernels the LSTM layer calls on its buffers, stated by their
 * mathematical contracts over exact reals: `ops.assigns` (fill), `ops.assign`
 * (copy), `ops.mul` (elementwise product), `x.pick(i, null)` (one row of a
 * two-dimensional tensor), `gemv(1.0, A.transpose(1, 0), v, 1.0, y)`
 * (accumulate the transposed product into `y`), and an activation function
 * applied to a tensor in place. The bodies are reference implementations of
 * those contracts, not of the libraries' code.
 */
module NdArray {
  import opened Vectors

  /** Row `i` of a two-dimensional tensor. */
  ghost function Row(x: array2<real>, i: nat): (r: Vector)
    requires i < x.Length0
    reads x
    ensures |r| == x.Length1
  {
    seq(x.Length1, k requires 0 <= k < x.Length1 reads x => x[i, k])
  }

  /** A two-dimensional tensor as the sequence of its rows, first row first. */
  ghost function Rows(x: array2<real>): (r: seq<Vector>)
    reads x
    ensures |r| == x.Length0
    ensures forall i :: 0 <= i < x.Length0 ==> r[i] == Row(x, i)
  {
    seq(x.Length0, i requires 0 <= i < x.Length0 reads x => Row(x, i))
  }

  /** `ops.assigns(dst, v)`: every element of `dst` becomes `v`. */
  method Assigns(dst: array<real>, v: real)
    modifies dst
    ensures dst[..] == seq(dst.Length, _ => v)
  {
    for k := 0 to dst.Length
      invariant forall l :: 0 <= l < k ==> dst[l] == v
    {
      dst[k] := v;
    }
  }

  /** `ops.assign(dst, src)`: element-for-element copy between equal shapes. */
  method Assign(dst: array<real>, src: array<real>)
    requires dst.Length == src.Length
    modifies dst
    ensures dst[..] == old(src[..])
  {
    for k := 0 to dst.Length
      invariant forall l :: 0 <= l < k ==> dst[l] == old(src[l])
      invariant forall l :: k <= l < src.Length ==> src[l] == old(src[l])
    {
      dst[k] := src[k];
    }
  }

  /** `ops.assign(dst, x.pick(i, null))`: copy row `i` of `x` into `dst`. */
  method AssignRow(dst: array<real>, x: array2<real>, i: nat)
    requires i < x.Length0 && dst.Length == x.Length1
    modifies dst
    ensures dst[..] == Row(x, i)
  {
    for k := 0 to dst.Length
      invariant forall l :: 0 <= l < k ==> dst[l] == x[i, l]
    {
      dst[k] := x[i, k];
    }
  }

  /** `ops.mul(dst, a, b)`: `dst` becomes the elementwise product of `a` and `b`. */
  method Mul(dst: array<real>, a: array<real>, b: array<real>)
    requires dst.Length == a.Length == b.Length
    modifies dst
    ensures dst[..] == Hadamard(old(a[..]), old(b[..]))
  {
    for k := 0 to dst.Length
      invariant forall l :: 0 <= l < k ==> dst[l] == old(a[l]) * old(b[l])
      invariant forall l :: k <= l < dst.Length ==> a[l] == old(a[l]) && b[l] == old(b[l])
    {
      dst[k] := a[k] * b[k];
    }
    assert forall l :: 0 <= l < dst.Length ==> dst[..][l] == Hadamard(old(a[..]), old(b[..]))[l];
  }

  /** An activation function applied to every element of `t`, in place. */
  method Activate(f: real -> real, t: array<real>)
    modifies t
    ensures t[..] == MapVec(f, old(t[..]))
  {
    for k := 0 to t.Length
      invariant forall l :: 0 <= l < k ==> t[l] == f(old(t[l]))
      invariant forall l :: k <= l < t.Length ==> t[l] == old(t[l])
    {
      t[k] := f(t[k]);
    }
  }

  /**
   * `gemv(1.0, a.transpose(1, 0), v, 1.0, y)`: with `a` stored as an
   * `m`-by-`n` matrix, `y` becomes `aᵀ·v + y`. Each entry's dot product is
   * summed in increasing row order, as ColumnDot defines it.
   */
  method Gemv(a: Matrix, v: array<real>, y: array<real>)
    requires v != y
    requires IsMatrix(a, v.Length, y.Length)
    modifies y
    ensures y[..] == Add(MatTVec(a, v[..], y.Length), old(y[..]))
  {
    for j := 0 to y.Length
      invariant forall l :: 0 <= l < j ==> y[l] == ColumnDot(a, v[..], l) + old(y[l])
      invariant forall l :: j <= l < y.Length ==> y[l] == old(y[l])
    {
      var acc := 0.0;
      for k := 0 to v.Length
        invariant acc == ColumnDot(a[..k], v[..k], j)
      {
        assert a[..k + 1][..k] == a[..k] && v[..k + 1][..k] == v[..k];
        acc := acc + a[k][j] * v[k];
      }
      assert a[..v.Length] == a && v[..v.Length] == v[..];
      y[j] := y[j] + acc;
    }
  }
}
